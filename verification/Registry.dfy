/**
  Controller ids: a wrapping scan for a free id inside the process's slice,
  per-controller queue ids, and the slices that keep the port processes of one
  target apart.
 */
module Registries {
  import opened Common

  const CNTLID_MAX: nat := 0xFFEF

  datatype Entry = Entry(cntlid: nat, host: string, maxQid: nat, queues: seq<nat>)

  datatype IoConnectError = UnknownController | HostMismatch | InvalidQid | QueueExists

  ghost predicate Distinct(s: seq<nat>) {
    forall i, j :: 0 <= i < j < |s| ==> s[i] != s[j]
  }

  /** The admin queue and IO queues within the count granted, no id twice. */
  ghost predicate QueuesOk(e: Entry) {
    && e.queues != [] && e.queues[0] == 0 && Distinct(e.queues)
    && forall i :: 0 <= i < |e.queues| ==> e.queues[i] <= e.maxQid
  }

  /** The live controllers: each under its own id, inside the slice. */
  ghost predicate TableOk(min: nat, max: nat, controllers: map<nat, Entry>) {
    forall id :: id in controllers ==> min <= id <= max && controllers[id].cntlid == id && QueuesOk(controllers[id])
  }

  function Clamp(x: nat, lo: nat, hi: nat): nat {
    if x < lo then lo else if x > hi then hi else x
  }

  /** The id `offset` places after `start`, wrapping inside the slice. */
  function IdAt(min: nat, span: nat, start: nat, offset: nat): nat
    requires span > 0 && start >= min
  {
    min + (start - min + offset) % span
  }

  lemma ModSmall(a: nat, n: nat)
    requires n > 0 && a < 2 * n
    ensures a % n == if a < n then a else a - n
  {
    if a >= n {
      assert a == n + (a - n);
      assert a / n == 1;
    }
  }

  /** The scan visits every id of the slice. */
  lemma ScanCovers(min: nat, span: nat, start: nat, id: nat)
    requires span > 0 && min <= start < min + span && min <= id < min + span
    ensures exists offset :: 0 <= offset < span && IdAt(min, span, start, offset) == id
  {
    var offset := if id >= start then id - start else id + span - start;
    ModSmall(start - min + offset, span);
    assert IdAt(min, span, start, offset) == id;
  }

  /** The ids the scan passes before it comes to `id`: up from `start`, then up from `min`. */
  predicate Passed(min: nat, max: nat, start: nat, id: nat, x: nat) {
    if id >= start then start <= x < id else start <= x <= max || min <= x < id
  }

  lemma PassedBefore(min: nat, max: nat, start: nat, offset: nat, x: nat) returns (o: nat)
    requires min <= start <= max && offset < max - min + 1
    requires Passed(min, max, start, IdAt(min, max - min + 1, start, offset), x)
    ensures o < offset && IdAt(min, max - min + 1, start, o) == x
  {
    var span := max - min + 1;
    ModSmall(start - min + offset, span);
    o := if x >= start then x - start else x + span - start;
    ModSmall(start - min + o, span);
  }

  class Registry {
    const min: nat
    const max: nat
    var next: nat
    var controllers: map<nat, Entry>

    ghost predicate Valid()
      reads this
    {
      1 <= min <= max <= CNTLID_MAX && next < 0x1_0000 && TableOk(min, max, controllers)
    }

    constructor (min: nat, max: nat)
      requires 1 <= min <= max <= CNTLID_MAX
      ensures Valid() && this.min == min && this.max == max && next == min && controllers == map[]
    {
      this.min, this.max, next, controllers := min, max, min, map[];
    }

    /**
      Allocation fails only when the whole slice is taken; otherwise it gives the
      first free id from where the last one left off, wrapping once.
     */
    method Allocate(host: string, maxQid: nat) returns (id: Option<nat>)
      requires Valid()
      modifies this
      ensures Valid()
      ensures id.None? <==> forall x :: min <= x <= max ==> x in old(controllers)
      ensures id.None? ==> controllers == old(controllers) && next == old(next)
      ensures id.Some? ==>
        && id.value !in old(controllers) && min <= id.value <= max
        && controllers == old(controllers)[id.value := Entry(id.value, host, maxQid, [0])]
        && next == (id.value + 1) % 0x1_0000
        && var start := if old(next) < min then min else Min(old(next), max);
           forall x: nat :: Passed(min, max, start, id.value, x) ==> x in old(controllers)
    {
      var span := max - min + 1;
      var start := Clamp(next, min, max);
      for offset := 0 to span
        invariant Valid() && controllers == old(controllers) && next == old(next)
        invariant forall o {:trigger IdAt(min, span, start, o)} :: 0 <= o < offset ==> IdAt(min, span, start, o) in controllers
      {
        ModSmall(start - min + offset, span);
        var cntlid := IdAt(min, span, start, offset);
        if cntlid !in controllers {
          forall x: nat | Passed(min, max, start, cntlid, x) ensures x in controllers {
            var _ := PassedBefore(min, max, start, offset, x);
          }
          controllers := controllers[cntlid := Entry(cntlid, host, maxQid, [0])];
          next := (cntlid + 1) % 0x1_0000;
          return Some(cntlid);
        }
      }
      forall x | min <= x <= max ensures x in controllers {
        ScanCovers(min, span, start, x);
      }
      return None;
    }

    /** Only the controller's own host may add a queue, under a fresh id it was granted. */
    method InstallIoQueue(cntlid: nat, host: string, qid: nat) returns (r: Result<Entry, IoConnectError>)
      requires Valid()
      modifies this`controllers
      ensures Valid()
      ensures r.Ok? <==>
        && cntlid in old(controllers) && old(controllers)[cntlid].host == host
        && 1 <= qid <= old(controllers)[cntlid].maxQid && qid !in old(controllers)[cntlid].queues
      ensures r.Ok? ==>
        && r.value == old(controllers)[cntlid].(queues := old(controllers)[cntlid].queues + [qid])
        && controllers == old(controllers)[cntlid := r.value]
      ensures r.Err? ==>
        && controllers == old(controllers)
        && r.error == if cntlid !in controllers then UnknownController
                      else if controllers[cntlid].host != host then HostMismatch
                      else if qid in controllers[cntlid].queues && qid != 0 then QueueExists
                      else InvalidQid
    {
      if cntlid !in controllers {
        return Err(UnknownController);
      }
      var entry := controllers[cntlid];
      if entry.host != host {
        return Err(HostMismatch);
      }
      if qid == 0 || qid > entry.maxQid {
        return Err(InvalidQid);
      }
      if qid in entry.queues {
        return Err(QueueExists);
      }
      entry := entry.(queues := entry.queues + [qid]);
      controllers := controllers[cntlid := entry];
      return Ok(entry);
    }

    method Remove(cntlid: nat) returns (entry: Option<Entry>)
      requires Valid()
      modifies this`controllers
      ensures Valid() && controllers == old(controllers) - {cntlid}
      ensures entry == if cntlid in old(controllers) then Some(old(controllers)[cntlid]) else None
    {
      entry := if cntlid in controllers then Some(controllers[cntlid]) else None;
      controllers := controllers - {cntlid};
    }
  }

  // ----- slices per port -----

  function SliceLen(ports: nat): nat
    requires ports > 0
  {
    CNTLID_MAX / ports
  }

  function SliceMin(ports: nat, index: nat): nat
    requires index < ports
  {
    1 + index * SliceLen(ports)
  }

  function SliceMax(ports: nat, index: nat): int
    requires index < ports
  {
    if index + 1 == ports then CNTLID_MAX else SliceMin(ports, index) + SliceLen(ports) - 1
  }

  lemma MulUp(a: nat, b: nat, k: nat)
    requires a <= b
    ensures a * k <= b * k
  {
    assert b * k == a * k + (b - a) * k;
  }

  lemma SliceFits(ports: nat)
    requires ports > 0
    ensures ports * SliceLen(ports) <= CNTLID_MAX
    ensures SliceLen(ports) >= 1 <==> ports <= CNTLID_MAX
  {
    var n := SliceLen(ports);
    assert CNTLID_MAX == n * ports + CNTLID_MAX % ports;
    if n >= 1 {
      MulUp(1, n, ports);
    }
  }

  /** A registry can be built for every port exactly when there are not more ports than ids. */
  lemma SlicesAreValid(ports: nat)
    requires ports > 0
    ensures (forall index :: 0 <= index < ports ==> 1 <= SliceMin(ports, index) <= SliceMax(ports, index) <= CNTLID_MAX)
            <==> ports <= CNTLID_MAX
  {
    SliceFits(ports);
    var n := SliceLen(ports);
    if ports <= CNTLID_MAX {
      forall index | 0 <= index < ports
        ensures 1 <= SliceMin(ports, index) <= SliceMax(ports, index) <= CNTLID_MAX
      {
        MulUp(index + 1, ports, n);
        assert (index + 1) * n == index * n + n;
      }
    } else {
      assert SliceMin(ports, 0) == 1 && SliceMax(ports, 0) == 0;
    }
  }

  /** No id belongs to two ports. */
  lemma SlicesAreDisjoint(ports: nat, i: nat, j: nat, id: int)
    requires i < j < ports
    ensures !(SliceMin(ports, i) <= id <= SliceMax(ports, i) && SliceMin(ports, j) <= id <= SliceMax(ports, j))
  {
    MulUp(i + 1, j, SliceLen(ports));
    assert (i + 1) * SliceLen(ports) == i * SliceLen(ports) + SliceLen(ports);
  }

  /** Every id belongs to a port. */
  lemma SlicesCover(ports: nat, id: nat)
    requires 0 < ports <= CNTLID_MAX && 1 <= id <= CNTLID_MAX
    ensures exists index :: 0 <= index < ports && SliceMin(ports, index) <= id <= SliceMax(ports, index)
  {
    SliceFits(ports);
    var n := SliceLen(ports);
    var k := (id - 1) / n;
    assert id - 1 == k * n + (id - 1) % n;
    var index := if k < ports then k else ports - 1;
    MulUp(index, k, n);
    assert SliceMin(ports, index) <= id <= SliceMax(ports, index);
  }
}
