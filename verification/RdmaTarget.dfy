/** The RDMA queue as its reap loop runs it, method by method, against the state functions. */
module RdmaTarget {
  import opened Common
  import opened Slots
  import opened RdmaState
  import RdmaSystem

  /** Each tag's pool pages and the runs they come in, the free pages, and the leases so far. */
  datatype Leases = Leases(pages: seq<nat>, runs: seq<nat>, free: nat, taken: nat)

  /** What the NIC holds: posted capsule buffers and outstanding work requests. */
  datatype Nic = Nic(posted: set<nat>, readsOut: seq<nat>, writesOut: seq<nat>, sendOut: seq<bool>)

  /** The far end: capsules sent but not reaped, responses it has, commands it waits for. */
  datatype Peer = Peer(arrived: seq<Held>, delivered: seq<bool>, unanswered: nat)

  /** The capsule buffers of a queue of `n` slots. */
  function Buffers(n: nat): (s: set<nat>)
    ensures |s| == n && forall i: nat :: i in s <==> i < n
  {
    if n == 0 then {} else Buffers(n - 1) + {n - 1}
  }

  /** The queue object: its own lists and counts, the slots and the leases of its core, the NIC and the host. */
  class RdmaQueue {
    const env: Env
    var slots: SlotsView
    var leases: Leases
    var parked: seq<Held>
    var poolWait: seq<Wait>
    var readBatch: seq<nat>
    var responses: seq<Resp>
    var inflight: seq<nat>
    var nic: Nic
    var peer: Peer
    var overflow: bool

    /** The queue's state as the state functions see it. */
    function View(): Q
      reads this
    {
      Q(slots, parked, poolWait, readBatch, responses, leases.pages, leases.runs, nic.readsOut, nic.writesOut, nic.sendOut,
        peer.delivered, inflight, leases.free, leases.taken, nic.posted, peer.arrived, peer.unanswered, overflow)
    }

    ghost predicate Valid()
      reads this
    {
      slots.Sound() && Sized(env, View()) && EnvOk(env)
    }

    /** A queue of `env.nslots` slots: every buffer posted, every tag and page free. */
    constructor (env: Env, slots: SlotsView)
      requires EnvOk(env) && slots.Sound() && |slots.state| == env.nslots && forall t :: 0 <= t < env.nslots ==> slots.state[t] == Free
      ensures Valid() && this.env == env && RdmaSystem.Init(env, View())
    {
      this.env, this.slots := env, slots;
      parked, poolWait, readBatch, responses, overflow := [], [], [], [], false;
      var none := seq(env.nslots, _ => 0);
      var no := seq(env.nslots, _ => false);
      inflight := none;
      leases := Leases(none, none, env.pool, 0);
      nic := Nic(Buffers(env.nslots), none, none, no);
      peer := Peer([], no, 0);
      new;
      SumOfNone(none);
    }

    /** (Re-)post the RECV of a capsule buffer. */
    method PostRecv(idx: nat)
      modifies `nic
      ensures View() == RdmaState.PostRecv(old(View()), Some(idx))
    {
      nic := nic.(posted := nic.posted + {idx});
    }

    /** Lease pool pages into the slot, if there are enough. */
    method TryLease(tag: nat, pages: nat) returns (ok: bool)
      requires Valid() && tag < env.nslots && pages > 0
      modifies `leases
      ensures Valid() && ok == (pages <= old(leases.free))
      ensures View() == if ok then TakeLease(env, old(View()), tag, pages) else old(View())
    {
      if pages > leases.free {
        return false;
      }
      leases := leases.(pages := leases.pages[tag := pages], free := leases.free - pages);
      leases := leases.(runs := leases.runs[tag := 1 + env.frag(leases.taken) % pages], taken := leases.taken + 1);
      return true;
    }

    /** `try_stage_inline` and `try_stage_write`: lease, then submit or queue the READ. */
    method TryStage(tag: nat, cmd: Held) returns (staged: bool)
      requires Valid() && slots.Is(tag, Receiving) && env.route(cmd.sqe).Stage?
      modifies `slots, `leases, `readBatch, `nic
      ensures Valid() && staged == Fits(env, old(View()), cmd.sqe)
      ensures View() == if staged then StageCmd(env, old(View()), tag, cmd) else old(View())
    {
      LifeSound(slots, tag);
      staged := TryLease(tag, env.route(cmd.sqe).pages);
      if staged {
        if cmd.idx.Some? {
          slots := slots.Submit(tag);
          PostRecv(cmd.idx.value);
        } else {
          readBatch := readBatch + [tag];
        }
      }
    }

    /** Fail a command without dispatching it. */
    method FailRecv(tag: nat)
      requires Valid() && slots.Is(tag, Receiving)
      modifies `slots, `responses
      ensures Valid() && View() == RdmaState.FailRecv(old(View()), tag)
    {
      LifeSound(slots, tag);
      slots := slots.RespondReceiving(tag);
      responses := responses + [Resp(tag, false)];
    }

    method RouteCmd(tag: nat, cmd: Held)
      requires Valid() && slots.Is(tag, Receiving)
      modifies `slots, `leases, `poolWait, `readBatch, `responses, `nic
      ensures Valid() && View() == RdmaState.RouteCmd(env, old(View()), tag, cmd)
    {
      LifeSound(slots, tag);
      match env.route(cmd.sqe) {
        case Pass => slots := slots.Submit(tag);
        case Reject =>
          FailRecv(tag);
          if cmd.idx.Some? {
            PostRecv(cmd.idx.value);
          }
        case Stage(_) =>
          var staged := TryStage(tag, cmd);
          if !staged {
            poolWait := poolWait + [Wait(tag, cmd)];
          }
      }
    }

    /** Pop a free tag. */
    method ClaimTag() returns (tag: Option<nat>)
      requires Valid()
      modifies `slots
      ensures Valid() && slots == old(slots).Claim().0 && tag == old(slots).Claim().1
      ensures tag.Some? ==> slots.Is(tag.value, Receiving)
    {
      ClaimSound(slots);
      tag := slots.Claim().1;
      slots := slots.Claim().0;
    }

    /** Route a received command if a tag is free; park it if not, unless the host has overrun the parking lot. */
    method ClaimOrPark(cmd: Held)
      requires Valid() && (slots.free != [] ==> slots.free[|slots.free| - 1] < env.nslots)
      modifies `slots, `leases, `parked, `poolWait, `readBatch, `responses, `nic, `overflow
      ensures Valid()
      ensures old(slots).free == [] ==>
                View() == if old(|parked|) >= env.nslots then old(View()).(overflow := true)
                          else old(View()).(parked := old(parked) + [cmd])
      ensures old(slots).free != [] ==>
                View() == RdmaState.RouteCmd(env, old(View()).(slots := old(slots).Claim().0), old(slots).Claim().1.value, cmd)
    {
      var tag := ClaimTag();
      if tag.Some? {
        RouteCmd(tag.value, cmd);
      } else if |parked| >= env.nslots {
        overflow := true;
      } else {
        parked := parked + [cmd];
      }
    }

    /** A capsule arrived: re-arm its buffer unless the payload is in it, then claim a tag or park. */
    method HandleRecv()
      requires Valid() && peer.arrived != []
      requires slots.free != [] ==> slots.free[|slots.free| - 1] < env.nslots
      modifies this
      ensures Valid() && View() == RdmaState.HandleRecv(env, old(View()))
    {
      var a := peer.arrived[0];
      var inline := env.inline(a.sqe);
      peer := peer.(arrived := peer.arrived[1..]);
      if !inline && a.idx.Some? {
        PostRecv(a.idx.value);
      }
      ClaimOrPark(Held(a.sqe, if inline then a.idx else None));
    }

    /** One response WR completed; the last one releases the tag and its lease. */
    method OnResponseDone(tag: nat)
      requires Valid() && slots.Is(tag, Responding)
      modifies `slots, `leases, `inflight, `peer
      ensures Valid() && View() == ResponseDone(old(View()), tag)
    {
      LifeSound(slots, tag);
      var n := if inflight[tag] > 0 then inflight[tag] - 1 else 0;
      inflight := inflight[tag := n];
      if n == 0 {
        slots := slots.Release(tag);
        leases := leases.(pages := leases.pages[tag := 0], runs := leases.runs[tag := 0], free := leases.free + leases.pages[tag]);
        peer := peer.(delivered := peer.delivered[tag := false]);
      }
    }

    /** Dispatch one successful completion. */
    method HandleComp(c: Comp)
      requires Valid() && CompOk(env, View(), c)
      requires slots.free != [] ==> slots.free[|slots.free| - 1] < env.nslots
      requires c.Read? ==> slots.Is(c.tag, Receiving)
      requires c.Write? || c.Send? ==> slots.Is(c.tag, Responding)
      modifies this
      ensures Valid() && View() == Handle(env, old(View()), c)
    {
      match c {
        case Recv => HandleRecv();
        case Read(tag) =>
          LifeSound(slots, tag);
          nic := nic.(readsOut := nic.readsOut[tag := 0]);
          slots := slots.Submit(tag);
        case Write(tag) =>
          nic := nic.(writesOut := nic.writesOut[tag := 0]);
          OnResponseDone(tag);
        case Send(tag) =>
          nic := nic.(sendOut := nic.sendOut[tag := false]);
          OnResponseDone(tag);
      }
    }

    /** Retry waiting writes, oldest first, while their leases can be met. */
    method DrainPoolWait(ghost full: multiset<nat>)
      requires Valid() && RdmaSystem.Core(env, View(), full) && RdmaSystem.Simple(full)
      modifies `slots, `leases, `poolWait, `readBatch, `nic
      ensures Valid() && RdmaSystem.Core(env, View(), full) && View() == DrainWait(env, old(View()))
    {
      while poolWait != []
        invariant Valid() && RdmaSystem.Core(env, View(), full) && DrainWait(env, View()) == DrainWait(env, old(View()))
        decreases |poolWait|
      {
        var staged := StageFirst(full);
        if !staged {
          break;
        }
      }
    }

    /** The oldest waiting write, if its lease can be met. */
    method StageFirst(ghost full: multiset<nat>) returns (staged: bool)
      requires Valid() && poolWait != [] && RdmaSystem.Core(env, View(), full) && RdmaSystem.Simple(full)
      modifies `slots, `leases, `poolWait, `readBatch, `nic
      ensures Valid() && RdmaSystem.Core(env, View(), full) && DrainWait(env, View()) == DrainWait(env, old(View()))
      ensures if staged then poolWait == old(poolWait)[1..] else View() == DrainWait(env, View())
    {
      var w := poolWait[0];
      ghost var was := View();
      RdmaSystem.WaiterIs(env, was, full);
      RdmaSystem.DrainWaitIs(env, was);
      staged := TryStage(w.tag, w.cmd);
      if staged {
        RdmaSystem.StageFrame(env, was, w, was.wait[1..]);
        RdmaSystem.StageList(env, was, w);
        RdmaSystem.StageFront(env, was, full, View().(wait := was.wait[1..]));
        poolWait := poolWait[1..];
      }
    }

    /** Un-park commands, oldest first, while tags are free. */
    method DrainParked()
      requires Valid()
      modifies `slots, `leases, `parked, `poolWait, `readBatch, `responses, `nic
      ensures Valid() && View() == RdmaState.DrainParked(env, old(View()))
    {
      while parked != []
        invariant Valid() && RdmaState.DrainParked(env, View()) == RdmaState.DrainParked(env, old(View()))
        decreases |parked|
      {
        ClaimSound(slots);
        var tag := ClaimTag();
        if tag.None? {
          break;
        }
        var cmd := parked[0];
        parked := parked[1..];
        RouteKeepsSound(env, View(), tag.value, cmd);
        RouteCmd(tag.value, cmd);
      }
    }

    /** Post every collected host-data READ, one per run. */
    method PostReadsBatch()
      requires Valid()
      modifies `readBatch, `nic
      ensures Valid() && View() == PostReads(old(View()))
    {
      while readBatch != []
        invariant Valid() && PostReads(View()) == PostReads(old(View()))
        decreases |readBatch|
      {
        var tag := readBatch[0];
        if tag < env.nslots {
          nic := nic.(readsOut := nic.readsOut[tag := leases.runs[tag]]);
        }
        readBatch := readBatch[1..];
      }
    }

    /** Post every finished response on one doorbell: its WRITEs, then its SEND. */
    method PostResponsesBatch()
      requires Valid() && (forall i :: 0 <= i < |responses| ==> responses[i].tag < env.nslots)
      modifies `responses, `inflight, `nic
      ensures Valid() && responses == [] && View() == PostResps(old(View()))
    {
      while responses != []
        invariant Valid() && (forall i :: 0 <= i < |responses| ==> responses[i].tag < env.nslots)
        invariant PostResps(View()) == PostResps(old(View()))
        decreases |responses|
      {
        var r := responses[0];
        var pending := 1;
        responses := responses[1..];
        if r.data {
          nic := nic.(writesOut := nic.writesOut[r.tag := leases.runs[r.tag]]);
          pending := 2;
        }
        nic := nic.(sendOut := nic.sendOut[r.tag := true]);
        inflight := inflight[r.tag := pending];
      }
    }

    /** `process_cqes`: dispatch the polled completions, then run the drains they may have unblocked. */
    method ProcessCqes(comps: seq<Comp>, ghost full: multiset<nat>)
      requires Valid() && RdmaSystem.Inv(env, View(), full) && RdmaSystem.Simple(full)
      requires RdmaSystem.Reportable(env, View(), comps)
      modifies this
      ensures Valid() && View() == RdmaSystem.DoPoll(env, old(View()), comps)
      ensures RdmaSystem.Inv(env, View(), full)
    {
      RdmaSystem.PollKeeps(env, View(), full, comps);
      DispatchAll(comps, full);
      DrainPoolWait(full);
      RdmaSystem.DrainParkedSized(env, View());
      DrainParked();
      PostReadsBatch();
    }

    method DispatchAll(comps: seq<Comp>, ghost full: multiset<nat>)
      requires Valid() && RdmaSystem.Core(env, View(), full) && RdmaSystem.Simple(full)
      requires RdmaSystem.Reportable(env, View(), comps)
      modifies this
      ensures Valid() && RdmaSystem.Core(env, View(), full) && View() == RdmaSystem.HandleAll(env, old(View()), comps)
    {
      var rest := comps;
      while rest != []
        invariant Valid() && RdmaSystem.Core(env, View(), full) && RdmaSystem.Reportable(env, View(), rest)
        invariant RdmaSystem.HandleAll(env, View(), rest) == RdmaSystem.HandleAll(env, old(View()), comps)
        decreases |rest|
      {
        RdmaSystem.HandleAllIs(env, View(), full, rest);
        HandleComp(rest[0]);
        rest := rest[1..];
      }
    }
  }

  lemma {:induction false} SumOfNone(s: seq<nat>)
    requires forall i :: 0 <= i < |s| ==> s[i] == 0
    ensures Sum(s) == 0
  {
    if s != [] {
      SumOfNone(s[1..]);
    }
  }
}
