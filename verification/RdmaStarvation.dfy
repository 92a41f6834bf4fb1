/**
  The page wait is not first come, first served: a run, of any length, in which
  small writes pass a larger one that waits at the front.
 */
module RdmaStarvation {
  import opened Common
  import opened Pdu
  import opened Slots
  import opened RdmaState
  import opened RdmaSystem
  import opened RdmaProgress
  import RdmaCommands

  // ----- runs -----

  lemma {:induction false} RunAppend(env: Env, q: Q, a: seq<Step>, m: Q, b: seq<Step>, z: Q)
    requires Run(env, q, a, m) && Run(env, m, b, z)
    ensures Run(env, q, a + b, z)
    decreases a
  {
    if a == [] {
      assert a + b == b;
    } else {
      assert (a + b)[1..] == a[1..] + b;
      RunAppend(env, Apply(env, q, a[0]), a[1..], m, b, z);
    }
  }

  lemma RunOne(env: Env, q: Q, s: Step)
    requires Sized(env, q) && Enabled(env, q, s)
    ensures Run(env, q, [s], Apply(env, q, s))
  {
    assert [s][1..] == [];
  }

  /** The waiting writes are `wait`, and nothing is parked. */
  ghost predicate Stuck(env: Env, q: Q, full: multiset<nat>, wait: seq<Wait>) {
    EnvOk(env) && Simple(full) && q.wait == wait && q.parked == [] && Inv(env, q, full)
  }

  /** Tag `t` holds `p` pages. */
  ghost predicate Holds(q: Q, t: nat, s: SlotState, p: nat) {
    q.slots.Is(t, s) && t < |q.lease| && q.lease[t] == p
  }

  /** A write of `p` pages whose data is still with the host. */
  ghost predicate Writes(env: Env, sqe: Sqe, p: nat) {
    env.route(sqe) == Stage(p) && !env.inline(sqe)
  }

  /** The data of tag `u`'s write is on its way. */
  ghost predicate Fetching(q: Q, u: nat, p: nat) {
    Holds(q, u, Receiving, p) && u < |q.readsOut| && q.readsOut[u] > 0
  }

  /** A poll that only receives a small write: what it fetches and what it leaves alone. */
  ghost predicate Fetched(q: Q, z: Q, p: nat) {
    Passed(q, z, p) && Fetching(z, LastFree(q), p)
  }

  ghost predicate Passed(q: Q, z: Q, p: nat) {
    && q.slots.free != [] && LastFree(q) < |q.lease|
    && z.slots == q.slots.Claim().0 && z.lease == q.lease[LastFree(q) := p] && z.free == q.free - p
    && z.wait == q.wait && z.parked == q.parked && z.arrived == [] && z.resps == q.resps && z.unanswered == q.unanswered
  }

  lemma FetchIs(env: Env, q: Q, h: Q, small: Sqe, p: nat)
    requires Sized(env, q) && q.slots.Sound() && EnvOk(env) && Writes(env, small, p) && q.batch == [] && p <= q.free
    requires |q.arrived| == 1 && q.arrived[0].sqe == small && q.slots.free != [] && LastFree(q) < env.nslots && h == HandleRecv(env, q)
    ensures Sized(env, h) && h.batch == [LastFree(q)] && h.runs[LastFree(q)] > 0 && h.readsOut == q.readsOut && Passed(q, h, p)
  {
  }

  lemma FetchPosts(env: Env, q: Q, h: Q, p: nat)
    requires Sized(env, h) && q.slots.free != [] && LastFree(q) < env.nslots && h.batch == [LastFree(q)]
    requires Passed(q, h, p) && h.runs[LastFree(q)] > 0 && q.slots.Is(LastFree(q), Free)
    ensures Fetched(q, PostReads(h), p)
  {
    PostReadsFrame(h);
    assert h.batch[1..] == [];
  }

  /** A small write that arrives is staged, past those that wait. */
  lemma Fetch(env: Env, q: Q, full: multiset<nat>, wait: seq<Wait>, small: Sqe, z: Q, p: nat)
    requires Writes(env, small, p) && p <= q.free && q.slots.free != [] && |q.arrived| == 1 && q.arrived[0].sqe == small
    requires z == DoPoll(env, q, [Recv]) && Stuck(env, q, full, wait)
    ensures Reportable(env, q, [Recv]) && Fetched(q, z, p) && q.slots.Is(LastFree(q), Free)
  {
    assert LastFree(q) in q.slots.free;
    var h := HandleRecv(env, q);
    FetchIs(env, q, h, small, p);
    ClaimSound(q.slots);
    FetchPosts(env, q, h, p);
    PollOne(env, q, Recv, h);
  }

  /** A poll that only lands the data of `u`: it is ready to run. */
  lemma Land(env: Env, q: Q, full: multiset<nat>, wait: seq<Wait>, u: nat, z: Q, p: nat)
    requires Fetching(q, u, p) && z == DoPoll(env, q, [Read(u)]) && Stuck(env, q, full, wait)
    ensures Reportable(env, q, [Read(u)])
    ensures z == q.(readsOut := q.readsOut[u := 0], slots := q.slots.Submit(u))
  {
    var h := q.(readsOut := q.readsOut[u := 0], slots := q.slots.Submit(u));
    LifeSound(q.slots, u);
    CompLands(env, q, Read(u));
    PollOne(env, q, Read(u), h);
    PostReadsFrame(h);
  }

  function AnswerSteps(t: nat): seq<Step> {
    [StartCmd(t), Finish(t, false), PostResponse, Deliver(t)]
  }

  /** The write `t` has run and the host has its response, which the NIC has not reported yet. */
  function Answered(q: Q, t: nat): Q
    requires t < |q.slots.state| && t < |q.sendOut| && t < |q.inflight| && t < |q.delivered| && q.unanswered > 0
  {
    q.(slots := q.slots.(state := q.slots.state[t := Responding]), sendOut := q.sendOut[t := true],
       inflight := q.inflight[t := 1], delivered := q.delivered[t := true], unanswered := q.unanswered - 1)
  }

  lemma Execute(env: Env, q: Q, t: nat, z: Q)
    requires Sized(env, q) && q.slots.Is(t, Ready) && q.resps == []
    requires z == q.(slots := q.slots.(state := q.slots.state[t := Responding]), resps := [Resp(t, false)])
    ensures Run(env, q, [StartCmd(t), Finish(t, false)], z)
  {
    var m := q.(slots := q.slots.Start(t));
    assert m.slots.state[t := Responding] == q.slots.state[t := Responding];
    RunOne(env, q, StartCmd(t));
    RunOne(env, m, Finish(t, false));
    RunAppend(env, q, [StartCmd(t)], m, [Finish(t, false)], z);
  }

  lemma Respond(env: Env, q: Q, t: nat, z: Q)
    requires Sized(env, q) && t < env.nslots && q.resps == [Resp(t, false)] && q.unanswered > 0 && !q.delivered[t]
    requires z == Answered(q, t).(resps := [], slots := q.slots)
    ensures Run(env, q, [PostResponse, Deliver(t)], z)
  {
    var m := q.(resps := [], sendOut := q.sendOut[t := true], inflight := q.inflight[t := 1]);
    assert q.resps[1..] == [];
    RunOne(env, q, PostResponse);
    RunOne(env, m, Deliver(t));
    RunAppend(env, q, [PostResponse], m, [Deliver(t)], z);
  }

  lemma Answer(env: Env, q: Q, full: multiset<nat>, t: nat)
    requires Inv(env, q, full) && q.slots.Is(t, Ready) && q.resps == [] && q.unanswered > 0
    ensures Run(env, q, AnswerSteps(t), Answered(q, t))
  {
    assert TagOk(Tag(q, t));
    var m := q.(slots := q.slots.(state := q.slots.state[t := Responding]), resps := [Resp(t, false)]);
    Execute(env, q, t, m);
    Respond(env, m, t, Answered(q, t));
    RunAppend(env, q, [StartCmd(t), Finish(t, false)], m, [PostResponse, Deliver(t)], Answered(q, t));
    assert AnswerSteps(t) == [StartCmd(t), Finish(t, false)] + [PostResponse, Deliver(t)];
  }

  /** The last completion of a response without data. */
  lemma RetireIs(env: Env, q: Q, t: nat)
    requires Sized(env, q) && TagsOk(env, q) && q.slots.Is(t, Responding) && q.sendOut[t] && q.delivered[t] && q.inflight[t] == 1
    ensures ResponseDone(q.(sendOut := q.sendOut[t := false]), t) == Released(q, t)
  {
    assert TagOk(Tag(q, t));
    assert q.writesOut[t := 0] == q.writesOut;
  }

  /** A poll that only reports the response of `t`: the tag and its page are free again. */
  lemma Retire(env: Env, q: Q, full: multiset<nat>, wait: seq<Wait>, t: nat, z: Q, p: nat)
    requires Holds(q, t, Responding, p) && z == DoPoll(env, q, [Send(t)]) && Stuck(env, q, full, wait)
    requires q.sendOut[t] && q.delivered[t] && q.inflight[t] == 1
    requires wait != [] ==> !Fits(env, q.(free := q.free + p), wait[0].cmd.sqe)
    ensures Reportable(env, q, [Send(t)])
    ensures z == Released(q, t)
  {
    var h := Released(q, t);
    LifeSound(q.slots, t);
    CompLands(env, q, Send(t));
    RetireIs(env, q, t);
    PollOne(env, q, Send(t), h);
    PostReadsFrame(h);
  }

  /** How often the host sends `sqe`. */
  function Sends(steps: seq<Step>, sqe: Sqe): nat {
    if steps == [] then 0 else Bit(steps[0].HostSend? && steps[0].sqe == sqe) + Sends(steps[1..], sqe)
  }

  /** How many responses reach the host. */
  function Answers(steps: seq<Step>): nat {
    if steps == [] then 0 else Bit(steps[0].Deliver?) + Answers(steps[1..])
  }

  ghost predicate Tally(steps: seq<Step>, sqe: Sqe, sent: nat, answered: nat) {
    Sends(steps, sqe) == sent && Answers(steps) == answered
  }

  lemma {:induction false} TallyAppend(a: seq<Step>, b: seq<Step>, sqe: Sqe)
    ensures Tally(a + b, sqe, Sends(a, sqe) + Sends(b, sqe), Answers(a) + Answers(b))
  {
    if a == [] {
      assert a + b == b;
    } else {
      assert (a + b)[1..] == a[1..] + b;
      TallyAppend(a[1..], b, sqe);
    }
  }

  lemma TallyOne(a: Step, sqe: Sqe)
    ensures Tally([a], sqe, Bit(a.HostSend? && a.sqe == sqe), Bit(a.Deliver?))
  {
    assert [a][1..] == [];
    assert Sends([a][1..], sqe) == 0 && Answers([a][1..]) == 0;
  }

  lemma TallyTwo(a: Step, b: Step, sqe: Sqe)
    ensures Tally([a, b], sqe, Bit(a.HostSend? && a.sqe == sqe) + Bit(b.HostSend? && b.sqe == sqe), Bit(a.Deliver?) + Bit(b.Deliver?))
  {
    assert [a, b][1..] == [b];
    TallyOne(b, sqe);
  }

  function FetchSteps(sqe: Sqe, idx: nat): seq<Step> {
    [HostSend(sqe, idx), Poll([Recv])]
  }

  function RetireSteps(t: nat): seq<Step> {
    AnswerSteps(t) + [Poll([Send(t)])]
  }

  /** The host may send, and a write of `p` pages would be staged. */
  ghost predicate Open(env: Env, q: Q, p: nat) {
    q.arrived == [] && q.unanswered < env.nslots && q.slots.free != [] && p <= q.free
  }

  /** The host sends a command, for which it finds a posted buffer. */
  lemma SendNext(env: Env, q: Q, full: multiset<nat>, wait: seq<Wait>, sqe: Sqe) returns (idx: nat, z: Q)
    requires q.arrived == [] && q.unanswered < env.nslots && |full| == env.nslots && Stuck(env, q, full, wait)
    ensures idx in q.posted && Run(env, q, [HostSend(sqe, idx)], z) && Stuck(env, z, full, wait)
    ensures z == q.(posted := q.posted - {idx}, arrived := [Held(sqe, Some(idx))], unanswered := q.unanswered + 1)
  {
    PostedLeft(env, q, full);
    idx :| idx in q.posted;
    z := Apply(env, q, HostSend(sqe, idx));
    RunOne(env, q, HostSend(sqe, idx));
    StepKeeps(env, q, full, HostSend(sqe, idx));
  }

  lemma PollRuns(env: Env, q: Q, full: multiset<nat>, was: seq<Wait>, wait: seq<Wait>, comps: seq<Comp>, z: Q)
    requires Reportable(env, q, comps) && z == DoPoll(env, q, comps) && z.wait == wait && z.parked == []
    requires Stuck(env, q, full, was)
    ensures Run(env, q, [Poll(comps)], z) && Stuck(env, z, full, wait)
  {
    PollKeeps(env, q, full, comps);
    RunOne(env, q, Poll(comps));
  }

  lemma Join(env: Env, q: Q, a: seq<Step>, m: Q, b: seq<Step>, z: Q, steps: seq<Step>)
    requires Run(env, q, a, m) && Run(env, m, b, z) && steps == a + b
    ensures Run(env, q, steps, z)
  {
    RunAppend(env, q, a, m, b, z);
  }

  lemma AnswerNext(env: Env, q: Q, full: multiset<nat>, wait: seq<Wait>, t: nat)
    requires q.slots.Is(t, Ready) && q.resps == [] && q.unanswered > 0 && Stuck(env, q, full, wait)
    ensures Run(env, q, AnswerSteps(t), Answered(q, t)) && Stuck(env, Answered(q, t), full, wait)
  {
    Answer(env, q, full, t);
    RunKeeps(env, q, full, AnswerSteps(t), Answered(q, t));
  }

  lemma FetchRuns(env: Env, q: Q, full: multiset<nat>, wait: seq<Wait>, small: Sqe, p: nat) returns (z: Q)
    requires Writes(env, small, p) && p <= q.free && q.slots.free != [] && |q.arrived| == 1 && q.arrived[0].sqe == small
    requires Stuck(env, q, full, wait)
    ensures Run(env, q, [Poll([Recv])], z) && Stuck(env, z, full, wait) && Fetched(q, z, p) && q.slots.Is(LastFree(q), Free)
  {
    z := DoPoll(env, q, [Recv]);
    Fetch(env, q, full, wait, small, z, p);
    PollRuns(env, q, full, wait, wait, [Recv], z);
  }

  lemma FetchNext(env: Env, q: Q, full: multiset<nat>, wait: seq<Wait>, small: Sqe, p: nat) returns (idx: nat, z: Q)
    requires Writes(env, small, p) && Open(env, q, p) && |full| == env.nslots && Stuck(env, q, full, wait)
    ensures Run(env, q, FetchSteps(small, idx), z) && Stuck(env, z, full, wait)
    ensures Fetched(q.(unanswered := q.unanswered + 1), z, p) && q.slots.Is(LastFree(q), Free)
  {
    var m: Q;
    idx, m := SendNext(env, q, full, wait, small);
    z := FetchRuns(env, m, full, wait, small, p);
    Join(env, q, [HostSend(small, idx)], m, [Poll([Recv])], z, FetchSteps(small, idx));
  }

  /** The answer of `t` goes out and comes back. */
  lemma RetireNext(env: Env, q: Q, full: multiset<nat>, wait: seq<Wait>, t: nat, z: Q, p: nat)
    requires Holds(q, t, Ready, p) && q.resps == [] && q.unanswered > 0 && Stuck(env, q, full, wait)
    requires wait != [] ==> !Fits(env, q.(free := q.free + p), wait[0].cmd.sqe)
    requires z == Released(Answered(q, t), t)
    ensures Run(env, q, RetireSteps(t), z) && Stuck(env, z, full, wait)
  {
    var m := Answered(q, t);
    AnswerNext(env, q, full, wait, t);
    Retire(env, m, full, wait, t, DoPoll(env, m, [Send(t)]), p);
    PollRuns(env, m, full, wait, wait, [Send(t)], z);
    Join(env, q, AnswerSteps(t), m, [Poll([Send(t)])], z, RetireSteps(t));
  }

  lemma LandNext(env: Env, q: Q, full: multiset<nat>, wait: seq<Wait>, u: nat, z: Q, p: nat)
    requires Fetching(q, u, p) && Stuck(env, q, full, wait)
    requires z == q.(readsOut := q.readsOut[u := 0], slots := q.slots.Submit(u))
    ensures Run(env, q, [Poll([Read(u)])], z) && Stuck(env, z, full, wait)
  {
    Land(env, q, full, wait, u, DoPoll(env, q, [Read(u)]), p);
    PollRuns(env, q, full, wait, wait, [Read(u)], z);
  }

  /** While `wait` waits, a small write is ready to run and the host may send another. */
  ghost predicate Starved(env: Env, q: Q, full: multiset<nat>, wait: seq<Wait>, t: nat, p: nat) {
    Open(env, q, p) && wait != [] && Holds(q, t, Ready, p) && q.resps == [] && q.unanswered > 0 && Stuck(env, q, full, wait)
  }

  function CycleSteps(small: Sqe, idx: nat, t: nat, u: nat): seq<Step> {
    FetchSteps(small, idx) + (RetireSteps(t) + [Poll([Read(u)])])
  }

  /** The state after a turn: `u` has taken the place of `t`. */
  function Turned(q: Q, t: nat, u: nat): Q
    requires t != u && t < |q.slots.state| && t < |q.sendOut| && t < |q.inflight| && t < |q.delivered| && q.unanswered > 0
    requires t < |q.lease| && t < |q.runs| && t < |q.writesOut| && q.slots.Is(u, Receiving) && u < |q.readsOut|
  {
    var n := Released(Answered(q, t), t);
    n.(readsOut := q.readsOut[u := 0], slots := n.slots.Submit(u))
  }

  lemma TurnedIs(env: Env, q: Q, m: Q, t: nat, u: nat, p: nat)
    requires Sized(env, q) && Sized(env, m) && Open(env, q, p) && Holds(q, t, Ready, p) && q.slots.Is(u, Free) && u == LastFree(q)
    requires q.resps == [] && q.unanswered > 0 && Fetched(q.(unanswered := q.unanswered + 1), m, p)
    ensures Holds(m, t, Ready, p) && Fetching(m, u, p)
    ensures var z := Turned(m, t, u);
            Open(env, z, p) && Holds(z, u, Ready, p) && z.resps == [] && z.unanswered == q.unanswered && z.wait == q.wait
  {
  }

  /** The write before is answered, then the next one's data lands. */
  lemma Turn(env: Env, q: Q, full: multiset<nat>, wait: seq<Wait>, t: nat, u: nat, z: Q, p: nat)
    requires Holds(q, t, Ready, p) && Fetching(q, u, p) && t != u && q.resps == [] && q.unanswered > 0 && Stuck(env, q, full, wait)
    requires wait != [] ==> !Fits(env, q.(free := q.free + p), wait[0].cmd.sqe)
    requires z == Turned(q, t, u)
    ensures Run(env, q, RetireSteps(t) + [Poll([Read(u)])], z) && Stuck(env, z, full, wait)
  {
    var n := Released(Answered(q, t), t);
    RetireNext(env, q, full, wait, t, n, p);
    LandNext(env, n, full, wait, u, z, p);
    RunAppend(env, q, RetireSteps(t), n, [Poll([Read(u)])], z);
  }

  /** A small write is staged, the one before it answered, and everything is as before. */
  lemma Cycle(env: Env, q: Q, full: multiset<nat>, wait: seq<Wait>, small: Sqe, t: nat, p: nat) returns (idx: nat, u: nat, z: Q)
    requires Writes(env, small, p) && |full| == env.nslots && Starved(env, q, full, wait, t, p)
    ensures Run(env, q, CycleSteps(small, idx, t, u), z) && Starved(env, z, full, wait, u, p) && z.unanswered == q.unanswered
  {
    var m: Q;
    idx, m := FetchNext(env, q, full, wait, small, p);
    u := LastFree(q);
    TurnedIs(env, q, m, t, u, p);
    z := Turned(m, t, u);
    Turn(env, m, full, wait, t, u, z, p);
    Join(env, q, FetchSteps(small, idx), m, RetireSteps(t) + [Poll([Read(u)])], z, CycleSteps(small, idx, t, u));
  }

  lemma CycleTally(small: Sqe, idx: nat, t: nat, u: nat)
    ensures Tally(CycleSteps(small, idx, t, u), small, 1, 1)
  {
    TallyAppend(FetchSteps(small, idx), RetireSteps(t) + [Poll([Read(u)])], small);
    TallyAppend(RetireSteps(t), [Poll([Read(u)])], small);
    TallyAppend(AnswerSteps(t), [Poll([Send(t)])], small);
    AnswerTally(small, t);
    TallyTwo(HostSend(small, idx), Poll([Recv]), small);
    TallyOne(Poll([Read(u)]), small);
    TallyOne(Poll([Send(t)]), small);
  }

  lemma AnswerTally(small: Sqe, t: nat)
    ensures Tally(AnswerSteps(t), small, 0, 1)
  {
    assert AnswerSteps(t) == [StartCmd(t), Finish(t, false)] + [PostResponse, Deliver(t)];
    TallyAppend([StartCmd(t), Finish(t, false)], [PostResponse, Deliver(t)], small);
    TallyTwo(StartCmd(t), Finish(t, false), small);
    TallyTwo(PostResponse, Deliver(t), small);
  }

  /** One small write sent and one answered. */
  lemma PassOne(env: Env, q: Q, full: multiset<nat>, wait: seq<Wait>, small: Sqe, t: nat, p: nat)
    returns (steps: seq<Step>, u: nat, z: Q)
    requires Writes(env, small, p) && |full| == env.nslots && Starved(env, q, full, wait, t, p)
    ensures Run(env, q, steps, z) && Starved(env, z, full, wait, u, p) && Tally(steps, small, 1, 1)
  {
    var idx: nat;
    idx, u, z := Cycle(env, q, full, wait, small, t, p);
    CycleTally(small, idx, t, u);
    steps := CycleSteps(small, idx, t, u);
  }

  /** From a starved queue, any number of small writes pass. */
  lemma {:induction false} Passing(env: Env, q: Q, full: multiset<nat>, wait: seq<Wait>, small: Sqe, t: nat, n: nat, p: nat)
    returns (steps: seq<Step>, u: nat, z: Q)
    requires Writes(env, small, p) && |full| == env.nslots && Starved(env, q, full, wait, t, p)
    ensures Run(env, q, steps, z) && Starved(env, z, full, wait, u, p) && Tally(steps, small, n, n)
    decreases n
  {
    if n == 0 {
      steps, u, z := [], t, q;
    } else {
      var first, v, m := PassOne(env, q, full, wait, small, t, p);
      var rest;
      rest, u, z := Passing(env, m, full, wait, small, v, n - 1, p);
      steps := Chain(env, q, first, m, rest, z, small);
    }
  }

  lemma Chain(env: Env, q: Q, a: seq<Step>, m: Q, b: seq<Step>, z: Q, sqe: Sqe) returns (steps: seq<Step>)
    requires Run(env, q, a, m) && Run(env, m, b, z)
    ensures Run(env, q, steps, z)
    ensures Tally(steps, sqe, Sends(a, sqe) + Sends(b, sqe), Answers(a) + Answers(b))
  {
    steps := a + b;
    RunAppend(env, q, a, m, b, z);
    TallyAppend(a, b, sqe);
  }

  // ----- how a queue comes to be starved -----

  lemma {:induction false} RangeSize(n: nat, s: set<nat>)
    requires forall t: nat :: t in s <==> t < n
    ensures |s| == n
    decreases n
  {
    if n == 0 {
      assert s == {};
    } else {
      RangeSize(n - 1, s - {n - 1});
    }
  }

  lemma {:induction false} DistinctSize(s: seq<nat>, all: set<nat>)
    requires Distinct(s) && forall t: nat :: t in all <==> t in s
    ensures |all| == |s|
    decreases |s|
  {
    if s == [] {
      assert all == {};
    } else {
      var rest := s[1..];
      forall t: nat ensures t in all - {s[0]} <==> t in rest {
        assert s == [s[0]] + rest;
      }
      DistinctSize(rest, all - {s[0]});
    }
  }

  /** Before any command every tag is on the freelist. */
  lemma AllFree(env: Env, q: Q)
    requires Init(env, q)
    ensures |q.slots.free| == env.nslots
  {
    var all := set t: nat | t in q.slots.free;
    forall t: nat ensures t in all <==> t < env.nslots {
      assert t in q.slots.free <==> q.slots.Is(t, Free);
    }
    RangeSize(env.nslots, all);
    DistinctSize(q.slots.free, all);
  }

  /** The pages of `k` writes of `p`. */
  function Pages(k: nat, p: nat): nat {
    if k == 0 then 0 else p + Pages(k - 1, p)
  }

  lemma {:induction false} PagesIs(k: nat, p: nat)
    ensures Pages(k, p) == k * p
  {
    if k > 0 {
      PagesIs(k - 1, p);
      assert k * p == (k - 1) * p + p;
    }
  }

  lemma {:induction false} PagesGrow(i: nat, k: nat, p: nat)
    requires i <= k
    ensures Pages(i, p) <= Pages(k, p)
    decreases k
  {
    if i < k {
      PagesGrow(i, k - 1, p);
    }
  }

  /** Nothing waits, `k` writes of `p` pages have their data, and the rest of the tags and the pool is free. */
  ghost predicate Filled(env: Env, q: Q, full: multiset<nat>, p: nat, k: nat) {
    && q.arrived == [] && q.resps == [] && q.unanswered == k && |q.slots.free| + k == env.nslots
    && q.free + Pages(k, p) == env.pool && Stuck(env, q, full, [])
  }

  /** A write of `p` pages is sent and its data lands. */
  lemma FillOne(env: Env, q: Q, full: multiset<nat>, small: Sqe, p: nat, k: nat) returns (steps: seq<Step>, t: nat, z: Q)
    requires Writes(env, small, p) && |full| == env.nslots && k < env.nslots && Pages(k + 1, p) <= env.pool
    requires Filled(env, q, full, p, k)
    ensures Run(env, q, steps, z) && Filled(env, z, full, p, k + 1) && Holds(z, t, Ready, p)
  {
    var idx, m := FetchNext(env, q, full, [], small, p);
    t := LastFree(q);
    z := m.(readsOut := m.readsOut[t := 0], slots := m.slots.Submit(t));
    LandNext(env, m, full, [], t, z, p);
    steps := FetchSteps(small, idx) + [Poll([Read(t)])];
    RunAppend(env, q, FetchSteps(small, idx), m, [Poll([Read(t)])], z);
  }

  /** Runs can be put together. */
  ghost predicate Composes(run: (Q, seq<Step>, Q) -> bool) {
    && (forall x :: run(x, [], x))
    && (forall x, a, y, b, w :: run(x, a, y) && run(y, b, w) ==> run(x, a + b, w))
  }

  /** From each stage below `k` a run leads to the next. */
  ghost predicate Climbs(run: (Q, seq<Step>, Q) -> bool, good: (Q, nat) -> bool, k: nat) {
    forall x, j: nat :: j < k && good(x, j) ==> exists a, y :: run(x, a, y) && good(y, j + 1)
  }

  lemma {:induction false} Repeat(run: (Q, seq<Step>, Q) -> bool, good: (Q, nat) -> bool, q: Q, i: nat, k: nat)
    returns (steps: seq<Step>, z: Q)
    requires i <= k && good(q, i) && Composes(run) && Climbs(run, good, k)
    ensures run(q, steps, z) && good(z, k)
    decreases k - i
  {
    if i == k {
      steps, z := [], q;
    } else {
      var a, m :| run(q, a, m) && good(m, i + 1);
      var rest;
      rest, z := Repeat(run, good, m, i + 1, k);
      steps := a + rest;
    }
  }

  ghost function RunOf(env: Env): (Q, seq<Step>, Q) -> bool {
    (x: Q, a: seq<Step>, y: Q) => Run(env, x, a, y)
  }

  lemma RunComposes(env: Env)
    ensures Composes(RunOf(env))
  {
    var run := RunOf(env);
    forall x, a, y, b, w | run(x, a, y) && run(y, b, w) ensures run(x, a + b, w) {
      RunAppend(env, x, a, y, b, w);
    }
  }

  ghost predicate FilledBy(env: Env, q: Q, full: multiset<nat>, p: nat, k: nat) {
    Filled(env, q, full, p, k) && (k > 0 ==> exists t: nat :: Holds(q, t, Ready, p))
  }

  ghost function FilledOf(env: Env, full: multiset<nat>, p: nat): (Q, nat) -> bool {
    (x: Q, j: nat) => FilledBy(env, x, full, p, j)
  }

  lemma FillMore(env: Env, q: Q, full: multiset<nat>, small: Sqe, p: nat, j: nat, k: nat) returns (steps: seq<Step>, z: Q)
    requires Writes(env, small, p) && |full| == env.nslots && j < k <= env.nslots && Pages(k, p) <= env.pool
    requires FilledOf(env, full, p)(q, j)
    ensures RunOf(env)(q, steps, z) && FilledOf(env, full, p)(z, j + 1)
  {
    PagesGrow(j + 1, k, p);
    var t;
    steps, t, z := FillOne(env, q, full, small, p, j);
  }

  lemma FillClimbs(env: Env, full: multiset<nat>, small: Sqe, p: nat, k: nat)
    requires Writes(env, small, p) && |full| == env.nslots && k <= env.nslots && Pages(k, p) <= env.pool
    ensures Climbs(RunOf(env), FilledOf(env, full, p), k)
  {
    var run, good := RunOf(env), FilledOf(env, full, p);
    forall x, j: nat | j < k && good(x, j) ensures exists a, y :: run(x, a, y) && good(y, j + 1) {
      var a, y := FillMore(env, x, full, small, p, j, k);
    }
  }

  /** `k` such writes. */
  lemma Fill(env: Env, q: Q, full: multiset<nat>, small: Sqe, p: nat, k: nat) returns (steps: seq<Step>, z: Q)
    requires Writes(env, small, p) && |full| == env.nslots && k <= env.nslots && Pages(k, p) <= env.pool
    requires FilledBy(env, q, full, p, 0)
    ensures Run(env, q, steps, z) && FilledBy(env, z, full, p, k)
  {
    RunComposes(env);
    FillClimbs(env, full, small, p, k);
    steps, z := Repeat(RunOf(env), FilledOf(env, full, p), q, 0, k);
  }

  /** A write that does not fit waits. */
  lemma Block(env: Env, q: Q, full: multiset<nat>, big: Sqe, b: nat, z: Q)
    requires Writes(env, big, b) && q.free < b && q.slots.free != [] && |q.arrived| == 1 && q.arrived[0].sqe == big
    requires z == DoPoll(env, q, [Recv]) && Stuck(env, q, full, [])
    ensures Reportable(env, q, [Recv])
    ensures z == q.(arrived := [], slots := q.slots.Claim().0, posted := z.posted, wait := [Wait(LastFree(q), Held(big, None))])
    ensures q.slots.Is(LastFree(q), Free)
  {
    assert LastFree(q) in q.slots.free;
    var h := HandleRecv(env, q);
    ClaimSound(q.slots);
    PollOne(env, q, Recv, h);
  }

  lemma BlockRuns(env: Env, q: Q, full: multiset<nat>, big: Sqe, b: nat) returns (z: Q)
    requires Writes(env, big, b) && q.free < b && q.slots.free != [] && |q.arrived| == 1 && q.arrived[0].sqe == big
    requires Stuck(env, q, full, [])
    ensures Run(env, q, [Poll([Recv])], z) && Stuck(env, z, full, [Wait(LastFree(q), Held(big, None))])
    ensures z == q.(arrived := [], slots := q.slots.Claim().0, posted := z.posted, wait := z.wait)
    ensures q.slots.Is(LastFree(q), Free)
  {
    z := DoPoll(env, q, [Recv]);
    Block(env, q, full, big, b, z);
    PollRuns(env, q, full, [], [Wait(LastFree(q), Held(big, None))], [Recv], z);
  }

  /** While `k` writes hold their pages a larger one arrives and waits. */
  lemma BlockNext(env: Env, q: Q, full: multiset<nat>, t: nat, p: nat, k: nat, big: Sqe, b: nat) returns (steps: seq<Step>, z: Q)
    requires Writes(env, big, b) && |full| == env.nslots && 0 < k && k + 2 <= env.nslots && p <= q.free < b
    requires Holds(q, t, Ready, p) && Filled(env, q, full, p, k)
    ensures Run(env, q, steps, z) && Starved(env, z, full, z.wait, t, p) && |z.wait| == 1 && z.wait[0].cmd == Held(big, None)
  {
    var idx, m := SendNext(env, q, full, [], big);
    z := BlockRuns(env, m, full, big, b);
    BlockOpens(env, m, z, t, p);
    steps := [HostSend(big, idx)] + [Poll([Recv])];
    Join(env, q, [HostSend(big, idx)], m, [Poll([Recv])], z, steps);
  }

  lemma BlockOpens(env: Env, q: Q, z: Q, t: nat, p: nat)
    requires |q.slots.free| >= 2 && q.slots.Is(LastFree(q), Free) && q.unanswered < env.nslots && p <= q.free && Holds(q, t, Ready, p)
    requires z == q.(arrived := [], slots := q.slots.Claim().0, posted := z.posted, wait := z.wait)
    ensures Open(env, z, p) && Holds(z, t, Ready, p) && z.resps == q.resps && z.unanswered == q.unanswered
  {
  }

  lemma Starts(env: Env, q: Q, full: multiset<nat>, small: Sqe, p: nat, k: nat, big: Sqe, b: nat)
    returns (steps: seq<Step>, t: nat, z: Q)
    requires Writes(env, small, p) && Writes(env, big, b) && |full| == env.nslots
    requires 0 < k && k + 2 <= env.nslots && p <= env.pool - Pages(k, p) < b && Filled(env, q, full, p, 0)
    ensures Run(env, q, steps, z) && Starved(env, z, full, z.wait, t, p) && |z.wait| == 1 && z.wait[0].cmd == Held(big, None)
  {
    var a, m := Fill(env, q, full, small, p, k);
    t :| Holds(m, t, Ready, p);
    var c;
    c, z := BlockNext(env, m, full, t, p, k, big, b);
    steps := a + c;
    Join(env, q, a, m, c, z, steps);
  }

  /** From `q` the host can send and be answered `n` times while the same writes wait. */
  ghost predicate PassedBy(env: Env, q: Q, sqe: Sqe, n: nat) {
    exists steps, z :: Run(env, q, steps, z) && Tally(steps, sqe, n, n) && z.wait == q.wait
  }

  /**
    The front can starve. Let writes of `p` pages, `k` of them, leave room in the
    pool for one more but not for one of `b` pages, with two slots to spare. Then
    there is a run to a state in which a write of `b` pages waits, and from there,
    for every `n`, a run in which the host sends and is answered `n` writes of
    `p` pages while the larger one still waits at the front.
   */
  lemma FrontStarves(env: Env, q: Q, small: Sqe, p: nat, k: nat, big: Sqe, b: nat) returns (prefix: seq<Step>, m: Q)
    requires Init(env, q) && EnvOk(env) && Writes(env, small, p) && Writes(env, big, b)
    requires 0 < k && k + 2 <= env.nslots && p <= env.pool - k * p < b
    ensures Run(env, q, prefix, m) && |m.wait| == 1 && m.wait[0].cmd == Held(big, None)
    ensures forall n: nat :: PassedBy(env, m, small, n)
  {
    InitKeeps(env, q);
    AllFree(env, q);
    PagesIs(k, p);
    var full := multiset(q.posted);
    var t;
    prefix, t, m := Starts(env, q, full, small, p, k, big, b);
    forall n: nat ensures PassedBy(env, m, small, n) {
      var steps, u, z := Passing(env, m, full, m.wait, small, t, n, p);
    }
  }

  /** A keyed write of `pages` pages. */
  function WriteOf(pages: nat): Sqe
    requires pages <= MAX_PAGES
  {
    seq(64, i requires 0 <= i < 64 =>
      if i == 0 then RdmaCommands.WRITE
      else if i == 33 then (pages % 16 * 16) as byte
      else if i == 34 then (pages / 16) as byte
      else if i == RdmaCommands.SGL_TYPE_OFFSET then 0x40
      else 0)
  }

  lemma WriteStages(pages: nat)
    requires 0 < pages <= MAX_PAGES
    ensures RdmaCommands.RouteOf(true, WriteOf(pages)) == Stage(pages) && !RdmaCommands.Inline(true, WriteOf(pages))
  {
    var s := WriteOf(pages);
    assert s[0] == RdmaCommands.WRITE && s[39] == 0x40;
    assert RdmaCommands.KeyedLen(s) == 0x100 * (pages % 16 * 16) + 0x1_0000 * (pages / 16);
    assert pages == pages / 16 * 16 + pages % 16;
    assert RdmaCommands.StagedLen(s) == 4096 * pages;
  }

  /**
    With the program's own decode, 128 slots and the 2048 pages of an 8 MiB pool:
    22-page writes starve one of the largest size.
   */
  lemma WritesStarve(frag: nat -> nat, q: Q) returns (prefix: seq<Step>, m: Q)
    requires Init(RdmaCommands.EnvOf(true, frag, 128, 2048), q)
    ensures var env := RdmaCommands.EnvOf(true, frag, 128, 2048);
            && Run(env, q, prefix, m) && |m.wait| == 1 && m.wait[0].cmd == Held(WriteOf(32), None)
            && forall n: nat :: PassedBy(env, m, WriteOf(22), n)
  {
    var env := RdmaCommands.EnvOf(true, frag, 128, 2048);
    RdmaCommands.DecodeIsOk(true, frag, 128, 2048);
    WriteStages(22);
    WriteStages(32);
    prefix, m := FrontStarves(env, q, WriteOf(22), 22, 92, WriteOf(32), 32);
  }
}
