/**
  The namespace table and its per-connection cache: control-plane writers
  replace the table under a lock and bump a generation, queue threads revalidate
  by one generation load per command. Every atomic or lock operation is a step.
 */
module NsCaches {
  import opened Common

  /** Namespace id to namespace. */
  type Table = map<nat, nat>

  datatype Op = Add(nsid: nat, ns: nat) | Remove(nsid: nat)

  /** A change is refused if the id is taken, or not there to remove. */
  predicate Accepts(t: Table, op: Op) {
    match op
    case Add(nsid, _) => nsid !in t
    case Remove(nsid) => nsid in t
  }

  function Changed(t: Table, op: Op): Table {
    match op
    case Add(nsid, ns) => t[nsid := ns]
    case Remove(nsid) => t - {nsid}
  }

  /** No namespace but `nsid` differs. */
  ghost predicate SameBut(a: Table, b: Table, nsid: nat) {
    forall id :: id != nsid ==> (id in a <==> id in b) && (id in a && id in b ==> a[id] == b[id])
  }

  // ----- one thread -----

  class Subsystem {
    var table: Table
    var generation: nat

    constructor (table: Table)
      ensures this.table == table && generation == 1
    {
      this.table, generation := table, 1;
    }

    method AddNamespace(nsid: nat, ns: nat) returns (ok: bool)
      modifies this
      ensures ok <==> nsid !in old(table)
      ensures ok ==> table.Keys == old(table).Keys + {nsid} && table[nsid] == ns && SameBut(old(table), table, nsid)
      ensures !ok ==> table == old(table)
      ensures generation == old(generation) + if ok then 1 else 0
    {
      if nsid in table {
        return false;
      }
      table := table[nsid := ns];
      generation := generation + 1;
      return true;
    }

    method RemoveNamespace(nsid: nat) returns (ok: bool)
      modifies this
      ensures ok <==> nsid in old(table)
      ensures ok ==> table.Keys == old(table).Keys - {nsid} && SameBut(old(table), table, nsid)
      ensures !ok ==> table == old(table)
      ensures generation == old(generation) + if ok then 1 else 0
    {
      if nsid !in table {
        return false;
      }
      table := table - {nsid};
      generation := generation + 1;
      return true;
    }
  }

  class NsCache {
    var generation: nat
    var cached: Option<Table>

    constructor ()
      ensures generation == 0 && cached == None
    {
      generation, cached := 0, None;
    }

    /** What the cache holds for its generation is what the table was then. */
    ghost predicate Fresh(s: Subsystem)
      reads this, s
    {
      generation <= s.generation && (generation == s.generation && cached.Some? ==> cached.value == s.table)
    }

    method Get(s: Subsystem) returns (t: Table)
      requires Fresh(s)
      modifies this
      ensures t == s.table && Fresh(s) && cached == Some(t) && generation == s.generation
    {
      var g := s.generation;
      if generation != g || cached.None? {
        cached := Some(s.table);
        generation := g;
      }
      return cached.value;
    }
  }

  // ----- every interleaving -----

  /** A writer holds the lock, has replaced the table, or has bumped the generation too. */
  datatype Writer = Locked(op: Op) | Replaced | Bumped

  /** Inside a call: the generation is loaded; the read lock is held; the table is copied. */
  datatype Pc = Idle | Loaded(g: nat) | Reading(g: nat) | Copied(g: nat)

  /** A copy of the table, and which version of it this is. */
  datatype Snap = Snap(version: nat, table: Table)

  /** One finished call: the generation it loaded and what it returned. */
  datatype Got = Got(g: nat, snap: Snap)

  datatype Cache = Cache(generation: nat, cached: Option<Snap>, pc: Pc, results: seq<Got>)

  /** `hist` are all tables there have been; version `v` is the `v`-th, starting at 1. */
  datatype Sys = Sys(hist: seq<Table>, gen: nat, writer: Option<Writer>, caches: seq<Cache>)

  datatype Step =
    | Lock(op: Op)
    | Replace
    | Bump
    | Unlock
    | Load(r: nat)
    | Hit(r: nat)
    | ReadLock(r: nat)
    | Copy(r: nat)
    | Store(r: nat)

  predicate NoReaders(caches: seq<Cache>) {
    forall r :: 0 <= r < |caches| ==> !caches[r].pc.Reading?
  }

  /** The cache is current for the generation it loaded. */
  predicate Current(c: Cache) {
    c.pc.Loaded? && c.generation == c.pc.g && c.cached.Some?
  }

  ghost predicate Enabled(y: Sys, s: Step) {
    match s
    case Lock(_) => y.writer == None && NoReaders(y.caches)
    case Replace => y.writer.Some? && y.writer.value.Locked? && y.hist != []
    case Bump => y.writer == Some(Replaced)
    case Unlock => y.writer == Some(Bumped)
    case Load(r) => r < |y.caches| && y.caches[r].pc == Idle
    case Hit(r) => r < |y.caches| && Current(y.caches[r])
    case ReadLock(r) => r < |y.caches| && y.caches[r].pc.Loaded? && !Current(y.caches[r]) && y.writer == None
    case Copy(r) => r < |y.caches| && y.caches[r].pc.Reading? && y.hist != []
    case Store(r) => r < |y.caches| && y.caches[r].pc.Copied? && y.caches[r].cached.Some?
  }

  ghost function Put(y: Sys, r: nat, c: Cache): Sys
    requires r < |y.caches|
  {
    y.(caches := y.caches[r := c])
  }

  ghost function Apply(y: Sys, s: Step): Sys
    requires Enabled(y, s)
  {
    match s
    case Lock(op) => y.(writer := Some(Locked(op)))
    case Replace =>
      var t := y.hist[|y.hist| - 1];
      if Accepts(t, y.writer.value.op) then y.(hist := y.hist + [Changed(t, y.writer.value.op)], writer := Some(Replaced))
      else y.(writer := None)
    case Bump => y.(gen := y.gen + 1, writer := Some(Bumped))
    case Unlock => y.(writer := None)
    case Load(r) => Put(y, r, y.caches[r].(pc := Loaded(y.gen)))
    case Hit(r) =>
      var c := y.caches[r];
      Put(y, r, c.(pc := Idle, results := c.results + [Got(c.pc.g, c.cached.value)]))
    case ReadLock(r) => Put(y, r, y.caches[r].(pc := Reading(y.caches[r].pc.g)))
    case Copy(r) =>
      var now := Snap(|y.hist|, y.hist[|y.hist| - 1]);
      Put(y, r, y.caches[r].(pc := Copied(y.caches[r].pc.g), cached := Some(now)))
    case Store(r) =>
      var c := y.caches[r];
      Put(y, r, c.(generation := c.pc.g, pc := Idle, results := c.results + [Got(c.pc.g, c.cached.value)]))
  }

  // ----- the invariant -----

  function Version(c: Cache): nat {
    if c.cached.Some? then c.cached.value.version else 0
  }

  /** A copy is the table of its version. */
  ghost predicate IsSnap(hist: seq<Table>, s: Snap) {
    1 <= s.version <= |hist| && s.table == hist[s.version - 1]
  }

  /** Each call returned a table at least as new as the generation it loaded, and none went back. */
  ghost predicate ResultsOk(hist: seq<Table>, c: Cache) {
    && (forall i :: 0 <= i < |c.results| ==>
          IsSnap(hist, c.results[i].snap) && c.results[i].g <= c.results[i].snap.version <= Version(c))
    && (forall i, j :: 0 <= i < j < |c.results| ==> c.results[i].snap.version <= c.results[j].snap.version)
  }

  ghost predicate CacheOk(y: Sys, c: Cache) {
    && c.generation <= Version(c) <= |y.hist| && (c.cached.Some? ==> IsSnap(y.hist, c.cached.value))
    && (c.pc != Idle ==> c.pc.g <= y.gen)
    && (c.pc.Copied? ==> c.cached.Some? && c.pc.g <= Version(c))
    && ResultsOk(y.hist, c)
  }

  ghost predicate Inv(y: Sys) {
    && y.hist != []
    && (if y.writer == Some(Replaced) then y.gen + 1 == |y.hist| else y.gen == |y.hist|)
    && (y.writer.Some? ==> NoReaders(y.caches))
    && (forall r :: 0 <= r < |y.caches| ==> CacheOk(y, y.caches[r]))
  }

  ghost predicate Init(y: Sys) {
    && |y.hist| == 1 && y.gen == 1 && y.writer == None
    && (forall r :: 0 <= r < |y.caches| ==> y.caches[r] == Cache(0, None, Idle, []))
  }

  lemma WriterKeeps(y: Sys, s: Step)
    requires Inv(y) && Enabled(y, s) && (s.Lock? || s.Replace? || s.Bump? || s.Unlock?)
    ensures Inv(Apply(y, s))
  {
    var z := Apply(y, s);
    forall r | 0 <= r < |z.caches| ensures CacheOk(z, z.caches[r]) {
      assert CacheOk(y, y.caches[r]);
    }
  }

  lemma ReaderKeeps(y: Sys, s: Step)
    requires Inv(y) && Enabled(y, s) && !(s.Lock? || s.Replace? || s.Bump? || s.Unlock?)
    ensures Inv(Apply(y, s))
  {
    var z := Apply(y, s);
    assert CacheOk(y, y.caches[s.r]);
    assert CacheOk(z, z.caches[s.r]);
    forall r | 0 <= r < |z.caches| ensures CacheOk(z, z.caches[r]) {
      assert CacheOk(y, y.caches[r]);
    }
  }

  ghost predicate Run(y: Sys, steps: seq<Step>, z: Sys)
    decreases steps
  {
    if steps == [] then y == z else Enabled(y, steps[0]) && Run(Apply(y, steps[0]), steps[1..], z)
  }

  lemma {:induction false} RunKeeps(y: Sys, steps: seq<Step>, z: Sys)
    requires Inv(y) && Run(y, steps, z)
    ensures Inv(z)
    decreases steps
  {
    if steps != [] {
      if steps[0].Lock? || steps[0].Replace? || steps[0].Bump? || steps[0].Unlock? {
        WriterKeeps(y, steps[0]);
      } else {
        ReaderKeeps(y, steps[0]);
      }
      RunKeeps(Apply(y, steps[0]), steps[1..], z);
    }
  }

  /**
    Whatever the interleaving, every call returns a whole table there has been,
    at least as new as the generation it loaded, and successive calls on one cache never go back.
   */
  lemma CallsAreFresh(y: Sys, steps: seq<Step>, z: Sys, r: nat)
    requires Init(y) && Run(y, steps, z) && r < |z.caches|
    ensures forall i :: 0 <= i < |z.caches[r].results| ==>
      IsSnap(z.hist, z.caches[r].results[i].snap) && z.caches[r].results[i].g <= z.caches[r].results[i].snap.version
    ensures forall i, j :: 0 <= i < j < |z.caches[r].results| ==>
      z.caches[r].results[i].snap.version <= z.caches[r].results[j].snap.version
  {
    RunKeeps(y, steps, z);
    assert CacheOk(z, z.caches[r]);
  }

  /** How many results a cache has only grows, and they stay. */
  lemma StepResults(y: Sys, s: Step, r: nat)
    requires Enabled(y, s) && r < |y.caches|
    ensures |Apply(y, s).caches| == |y.caches| && y.caches[r].results <= Apply(y, s).caches[r].results
  {
  }

  /** While a call is under way it keeps the generation it loaded, which is what it returns. */
  lemma {:induction false} CallKeepsLoad(y: Sys, steps: seq<Step>, z: Sys, r: nat, g: nat)
    requires Run(y, steps, z) && r < |y.caches| && y.caches[r].pc != Idle && y.caches[r].pc.g == g
    ensures |z.caches| == |y.caches| && y.caches[r].results <= z.caches[r].results
    ensures |z.caches[r].results| > |y.caches[r].results| ==> z.caches[r].results[|y.caches[r].results|].g == g
    ensures |z.caches[r].results| == |y.caches[r].results| ==> z.caches[r].pc != Idle && z.caches[r].pc.g == g
    decreases steps
  {
    if steps != [] {
      var m := Apply(y, steps[0]);
      StepResults(y, steps[0], r);
      if m.caches[r].pc != Idle {
        CallKeepsLoad(m, steps[1..], z, r, g);
      } else {
        ResultsStay(m, steps[1..], z, r);
      }
    }
  }

  lemma {:induction false} ResultsStay(y: Sys, steps: seq<Step>, z: Sys, r: nat)
    requires Run(y, steps, z) && r < |y.caches|
    ensures |z.caches| == |y.caches| && y.caches[r].results <= z.caches[r].results
    decreases steps
  {
    if steps != [] {
      StepResults(y, steps[0], r);
      ResultsStay(Apply(y, steps[0]), steps[1..], z, r);
    }
  }

  /**
    A call never misses a change completed before it: if the generation was
    already `v` when the call loaded it, the table it returns is version `v`
    or newer.
   */
  lemma NoChangeIsMissed(y: Sys, before: seq<Step>, m: Sys, after: seq<Step>, z: Sys, r: nat)
    requires Init(y) && Run(y, before, m) && r < |m.caches| && m.caches[r].pc == Idle
    requires Run(Apply(m, Load(r)), after, z) && |z.caches| == |m.caches|
    requires |z.caches[r].results| > |m.caches[r].results|
    ensures var got := z.caches[r].results[|m.caches[r].results|].snap; IsSnap(z.hist, got) && got.version >= m.gen
  {
    var l := Apply(m, Load(r));
    RunKeeps(y, before, m);
    ReaderKeeps(m, Load(r));
    CallKeepsLoad(l, after, z, r, m.gen);
    RunKeeps(l, after, z);
    assert CacheOk(z, z.caches[r]);
  }

  // ----- what the versions are -----

  /** Table `b` is `a` with one namespace more, or with one less. */
  ghost predicate Follows(a: Table, b: Table) {
    exists nsid :: (nsid in a) != (nsid in b) && SameBut(a, b, nsid)
  }

  ghost predicate Versions(hist: seq<Table>) {
    forall v :: 0 < v < |hist| ==> Follows(hist[v - 1], hist[v])
  }

  lemma ChangeFollows(t: Table, op: Op)
    requires Accepts(t, op)
    ensures Follows(t, Changed(t, op))
  {
    assert SameBut(t, Changed(t, op), op.nsid);
  }

  lemma {:induction false} RunVersions(y: Sys, steps: seq<Step>, z: Sys)
    requires Run(y, steps, z) && Versions(y.hist)
    ensures y.hist <= z.hist && Versions(z.hist)
    decreases steps
  {
    if steps != [] {
      var m := Apply(y, steps[0]);
      if steps[0].Replace? && Accepts(y.hist[|y.hist| - 1], y.writer.value.op) {
        ChangeFollows(y.hist[|y.hist| - 1], y.writer.value.op);
      }
      RunVersions(m, steps[1..], z);
    }
  }

  /** In any run, each version of the table adds one namespace to the one before it, or removes one. */
  lemma OneChangePerVersion(y: Sys, steps: seq<Step>, z: Sys)
    requires Init(y) && Run(y, steps, z)
    ensures Versions(z.hist)
  {
    RunVersions(y, steps, z);
  }

  /**
    A change that gets the lock is made, exactly if its id is free to add or
    there to remove; the next version then has the namespace, or lacks it, and
    the generation catches up before the lock is let go.
   */
  lemma ChangeIsMade(y: Sys, steps: seq<Step>, z: Sys)
    requires Init(y) && Run(y, steps, z) && z.writer.Some? && z.writer.value.Locked?
    ensures Enabled(z, Replace)
    ensures var op, t, m := z.writer.value.op, z.hist[|z.hist| - 1], Apply(z, Replace);
            if op.Add? == (op.nsid in t) then m.hist == z.hist && m.writer == None
            else
              && Enabled(m, Bump) && Enabled(Apply(m, Bump), Unlock)
              && var w := Apply(Apply(m, Bump), Unlock);
                 var t' := w.hist[|w.hist| - 1];
                 && |w.hist| == |z.hist| + 1 == w.gen && SameBut(t, t', op.nsid)
                 && (op.Add? ==> op.nsid in t' && t'[op.nsid] == op.ns) && (op.Remove? ==> op.nsid !in t')
  {
    RunKeeps(y, steps, z);
  }

  /** A writer, or a call under way, can always go on, or waits for a writer that can. */
  lemma NeverStuck(y: Sys, steps: seq<Step>, z: Sys, r: nat)
    requires Init(y) && Run(y, steps, z) && r < |z.caches| && (z.writer.Some? || z.caches[r].pc != Idle)
    ensures Enabled(z, Replace) || Enabled(z, Bump) || Enabled(z, Unlock)
            || Enabled(z, Hit(r)) || Enabled(z, ReadLock(r)) || Enabled(z, Copy(r)) || Enabled(z, Store(r))
  {
    RunKeeps(y, steps, z);
    assert CacheOk(z, z.caches[r]);
  }
}
