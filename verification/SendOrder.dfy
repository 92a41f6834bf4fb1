/**
  Which command each pushed item belongs to, over any run: everything a command
  sends, its R2Ts included, is pushed before its response, and so precedes it
  on the wire.
 */
module SendOrder {
  import opened Slots
  import opened SendItems
  import opened Sender
  import opened SendSystem

  /** `cmds` numbers the command that has, or last had, each tag; `owner` the command of each pushed item. */
  datatype Book = Book(cmds: seq<nat>, owner: seq<nat>)

  function CmdOf(b: Book, tag: nat): nat {
    if tag < |b.cmds| then b.cmds[tag] else 0
  }

  /** A claim starts a command; a push belongs to the command that has the tag. */
  ghost function Note(c: Conn, s: Step, b: Book): Book {
    match s
    case Claim =>
      var tag := c.slots.Claim().1;
      if tag.Some? && tag.value < |b.cmds| then b.(cmds := b.cmds[tag.value := b.cmds[tag.value] + 1]) else b
    case Complete(tag, _, _) => b.(owner := b.owner + [CmdOf(b, tag)])
    case FailReceiving(tag, _) => b.(owner := b.owner + [CmdOf(b, tag)])
    case Solicit(tag, _, _, _) => b.(owner := b.owner + [CmdOf(b, tag)])
    case _ => b
  }

  /** A run that keeps the book from `b` to `d`. */
  ghost predicate NotedRun(env: Env, c: Conn, b: Book, steps: seq<Step>, z: Conn, d: Book)
    decreases steps
  {
    if steps == [] then c == z && b == d
    else Shape(c) && Enabled(c, steps[0]) && NotedRun(env, Apply(env, c, steps[0]), Note(c, steps[0], b), steps[1..], z, d)
  }

  // ----- the invariant -----

  ghost predicate Numbered(state: seq<SlotState>, pushed: seq<Work>, b: Book) {
    && |b.cmds| == |state| && |b.owner| == |pushed|
    && (forall i :: 0 <= i < |pushed| ==> pushed[i].tag < |state| && b.owner[i] <= b.cmds[pushed[i].tag])
  }

  /** A command that has been answered no longer receives or executes. */
  ghost predicate Answered(state: seq<SlotState>, pushed: seq<Work>, b: Book)
    requires Numbered(state, pushed, b)
  {
    forall i :: 0 <= i < |pushed| && pushed[i].Response? && b.owner[i] == b.cmds[pushed[i].tag] ==>
      state[pushed[i].tag] == Responding || state[pushed[i].tag] == Free
  }

  /** What is pushed for a tag after a response belongs to a later command. */
  ghost predicate InOrder(pushed: seq<Work>, owner: seq<nat>) {
    |owner| == |pushed| &&
    forall i, j :: 0 <= i < j < |pushed| && pushed[i].Response? && pushed[j].tag == pushed[i].tag ==> owner[i] < owner[j]
  }

  ghost predicate BookOk(state: seq<SlotState>, pushed: seq<Work>, b: Book) {
    Numbered(state, pushed, b) && Answered(state, pushed, b) && InOrder(pushed, b.owner)
  }

  lemma PushNotes(state: seq<SlotState>, pushed: seq<Work>, b: Book, w: Work, state': seq<SlotState>)
    requires BookOk(state, pushed, b) && w.tag < |state| && (state[w.tag] == Receiving || state[w.tag] == Executing)
    requires state' == if w.Response? then state[w.tag := Responding] else state
    ensures BookOk(state', pushed + [w], b.(owner := b.owner + [CmdOf(b, w.tag)]))
  {
  }

  lemma ClaimNotes(state: seq<SlotState>, pushed: seq<Work>, b: Book, tag: nat)
    requires BookOk(state, pushed, b) && tag < |state|
    ensures BookOk(state[tag := Receiving], pushed, b.(cmds := b.cmds[tag := b.cmds[tag] + 1]))
  {
  }

  /** No slot but `tag` starts to receive or execute, and that one was doing so. */
  lemma MoveNotes(state: seq<SlotState>, pushed: seq<Work>, b: Book, tag: nat, v: SlotState)
    requires BookOk(state, pushed, b) && tag < |state| && state[tag] != Responding && state[tag] != Free
    ensures BookOk(state[tag := v], pushed, b)
  {
  }

  ghost predicate OnlyFrees(state: seq<SlotState>, state': seq<SlotState>) {
    |state'| == |state| && forall t :: 0 <= t < |state| ==> state'[t] == state[t] || state'[t] == Free
  }

  lemma FreeNotes(state: seq<SlotState>, pushed: seq<Work>, b: Book, state': seq<SlotState>)
    requires BookOk(state, pushed, b) && OnlyFrees(state, state')
    ensures BookOk(state', pushed, b)
  {
  }

  lemma {:induction false} ReleasesOnly(slots: SlotsView, tags: seq<nat>)
    ensures OnlyFrees(slots.state, ReleaseAll(slots, tags).state)
    decreases |tags|
  {
    if tags != [] && slots.Is(tags[0], Responding) {
      ReleasesOnly(slots.Release(tags[0]), tags[1..]);
    }
  }

  lemma RecycleOnly(c: Conn, idx: nat)
    requires |c.batches| == 2 && idx < 2
    ensures OnlyFrees(c.slots.state, Recycle(c, idx).slots.state) && Recycle(c, idx).pushed == c.pushed
  {
    ReleasesOnly(c.slots, c.batches[idx].atNotif);
  }

  lemma RetireOnly(c: Conn, idx: nat)
    requires |c.batches| == 2 && idx < 2
    ensures OnlyFrees(c.slots.state, Next(Retire(c, idx)).slots.state) && Next(Retire(c, idx)).pushed == c.pushed
  {
    RetireIs(c, idx);
    ReleasesOnly(c.slots, c.batches[idx].atCqe);
    RecycleOnly(Unloaded(c, idx), idx);
  }

  lemma SendOnly(env: Env, c: Conn, r: KernelResult, z: Conn)
    requires Shape(c) && Enabled(c, SendOp(r)) && z == DoSend(env, c, r)
    ensures OnlyFrees(c.slots.state, z.slots.state) && z.pushed == c.pushed
  {
    var one := ShipOne(env.indexed, ShipOf(c), r);
    ShipOneKeeps(env.indexed, ShipOf(c), r);
    if one.Done? {
      RetireOnly(Shipped(c, one.s), c.pc.idx);
    }
  }

  ghost predicate Engine(s: Step) {
    s.Claim? || s.SubmitCmd? || s.StartCmd? || s.Complete? || s.FailReceiving? || s.Solicit?
  }

  /** The sender's own steps push nothing and only free slots. */
  lemma SenderOnly(env: Env, c: Conn, s: Step, z: Conn)
    requires Shape(c) && Enabled(c, s) && !Engine(s) && z == Apply(env, c, s)
    ensures OnlyFrees(c.slots.state, z.slots.state) && z.pushed == c.pushed
  {
    match s
    case SendOp(r) => SendOnly(env, c, r, z);
    case ReapFront => RecycleOnly(c, c.inflight[0]);
    case AwaitOldest => RecycleOnly(c, c.inflight[0]);
    case DrainNext => RecycleOnly(c, c.pc.todo[0]);
    case _ =>
  }

  lemma EngineNotes(env: Env, c: Conn, s: Step, z: Conn, b: Book)
    requires Shape(c) && Enabled(c, s) && Engine(s) && z == Apply(env, c, s) && BookOk(c.slots.state, c.pushed, b)
    ensures BookOk(z.slots.state, z.pushed, Note(c, s, b))
  {
    match s
    case Claim =>
      var tag := c.slots.Claim().1;
      if tag.Some? && tag.value < |c.slots.state| {
        ClaimNotes(c.slots.state, c.pushed, b, tag.value);
      }
    case SubmitCmd(tag) => MoveNotes(c.slots.state, c.pushed, b, tag, Ready);
    case StartCmd(tag) => MoveNotes(c.slots.state, c.pushed, b, tag, Executing);
    case Complete(tag, cqe, len) =>
      PushNotes(c.slots.state, c.pushed, b, Response(tag, cqe, c.data[tag][..len]), z.slots.state);
    case FailReceiving(tag, cqe) => PushNotes(c.slots.state, c.pushed, b, Response(tag, cqe, []), z.slots.state);
    case Solicit(tag, cid, offset, length) =>
      PushNotes(c.slots.state, c.pushed, b, R2t(tag, cid, offset, length), z.slots.state);
  }

  lemma {:induction false} RunNotes(env: Env, c: Conn, b: Book, steps: seq<Step>, z: Conn, d: Book)
    requires NotedRun(env, c, b, steps, z, d) && BookOk(c.slots.state, c.pushed, b)
    ensures BookOk(z.slots.state, z.pushed, d) && Run(env, c, steps, z)
    decreases steps
  {
    if steps != [] {
      var m := Apply(env, c, steps[0]);
      if Engine(steps[0]) {
        EngineNotes(env, c, steps[0], m, b);
      } else {
        SenderOnly(env, c, steps[0], m);
        FreeNotes(c.slots.state, c.pushed, b, m.slots.state);
      }
      RunNotes(env, m, Note(c, steps[0], b), steps[1..], z, d);
    }
  }

  /** Two different pushed items of the same command. */
  ghost predicate OfOneCommand(pushed: seq<Work>, owner: seq<nat>, i: int, j: int) {
    && |owner| == |pushed| && 0 <= i < |pushed| && 0 <= j < |pushed| && i != j
    && pushed[i].tag == pushed[j].tag && owner[i] == owner[j]
  }

  /**
    In any run, whatever carries a command's tag and number, R2Ts above all, is
    pushed before the command's response, and there is at most one response;
    what goes on the wire is the pushed work in that order.
   */
  lemma R2tPrecedesResponse(env: Env, c: Conn, b: Book, steps: seq<Step>, z: Conn, d: Book)
    requires Init(c) && |b.cmds| == |c.slots.state| && b.owner == [] && NotedRun(env, c, b, steps, z, d)
    ensures |d.owner| == |z.pushed|
    ensures forall i, j :: OfOneCommand(z.pushed, d.owner, i, j) && z.pushed[j].Response? ==> i < j && z.pushed[i].R2t?
    ensures z.wire <= EncAll(env, z.pushed)
  {
    RunNotes(env, c, b, steps, z, d);
    WireIsPushedWork(env, c, steps, z);
  }
}
