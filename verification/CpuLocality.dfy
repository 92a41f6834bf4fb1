/**
  What the locality order of a node keeps together: where the masks are
  consistent, whole clusters and, inside them, whole SMT sibling sets are
  contiguous, and siblings ascend.
 */
module CpuLocality {
  import opened CpuSpread
  import CpuTurns

  /** What lies in the order between two members of `s` is a member too. */
  ghost predicate Contiguous(order: seq<nat>, s: CpuSet) {
    forall i, j, k :: 0 <= i <= j <= k < |order| && order[i] in s && order[k] in s ==> order[j] in s
  }

  ghost predicate Ascends(order: seq<nat>, s: CpuSet) {
    forall i, j :: 0 <= i < j < |order| && order[i] in s && order[j] in s ==> order[i] < order[j]
  }

  function Siblings(topo: Topology, node: CpuSet): nat -> CpuSet {
    (c: nat) => Mask(topo.sibling, c) * node
  }

  function Clusters(topo: Topology, node: CpuSet): nat -> CpuSet {
    (c: nat) => ClusterOf(topo, c) * node
  }

  /** Each CPU with a mask is in it, and shares it with all its members. */
  ghost predicate Classes(f: nat -> CpuSet, node: CpuSet) {
    && (forall c :: c in node && f(c) != {} ==> c in f(c) && f(c) <= node)
    && (forall c, d :: c in node && d in f(c) ==> f(d) == f(c))
  }

  /** Sibling sets and clusters partition the node's CPUs, and no sibling set crosses a cluster. */
  ghost predicate Consistent(topo: Topology, node: CpuSet) {
    && Classes(Siblings(topo, node), node) && Classes(Clusters(topo, node), node)
    && forall c :: c in node ==> Siblings(topo, node)(c) <= Clusters(topo, node)(c)
  }

  // ----- adding a block -----

  lemma BlockApart(order: seq<nat>, more: seq<nat>, s: CpuSet)
    requires Elems(more) !! s
    ensures Contiguous(order, s) ==> Contiguous(order + more, s)
    ensures Ascends(order, s) ==> Ascends(order + more, s)
  {
    assert forall i :: 0 <= i < |more| ==> more[i] in Elems(more);
    var all := order + more;
    assert forall i :: 0 <= i < |all| && all[i] in s ==> i < |order|;
  }

  lemma BlockWhole(order: seq<nat>, more: seq<nat>, s: CpuSet)
    requires Elems(order) !! s && Elems(more) == s
    ensures Contiguous(order + more, s)
    ensures Ascends(more, s) ==> Ascends(order + more, s)
  {
    assert forall i :: 0 <= i < |order| ==> order[i] in Elems(order);
    assert forall i :: 0 <= i < |more| ==> more[i] in Elems(more);
    var all := order + more;
    assert forall i :: 0 <= i < |all| && all[i] in s ==> |order| <= i;
    forall i, j | 0 <= i < j < |all| && all[i] in s && all[j] in s && Ascends(more, s) ensures all[i] < all[j] {
      assert all[i] == more[i - |order|] && all[j] == more[j - |order|];
    }
  }

  lemma ConsAscends(m: nat, rest: seq<nat>, s: CpuSet)
    requires Elems(rest) == s - {m} && Ascends(rest, s - {m}) && IsLeast(s, m)
    ensures Ascends([m] + rest, s)
  {
    var all := [m] + rest;
    assert forall i :: 0 <= i < |rest| ==> rest[i] in Elems(rest);
    forall i, j | 0 <= i < j < |all| ensures all[i] < all[j] {
      assert all[j] == rest[j - 1];
      assert i > 0 ==> all[i] == rest[i - 1];
    }
  }

  lemma {:induction false} AscAscends(s: CpuSet)
    ensures Ascends(Asc(s), s)
    decreases s
  {
    if s != {} {
      var m := Least(s);
      AscIs(s, m);
      AscAscends(s - {m});
      ConsAscends(m, Asc(s - {m}), s);
    }
  }

  /** Every set of the partition is walked whole or not at all, and is contiguous so far. */
  ghost predicate Grouped(f: nat -> CpuSet, node: CpuSet, w: Walk) {
    forall c :: c in node ==> (f(c) <= w.visited || f(c) !! w.visited) && Contiguous(w.order, f(c))
  }

  ghost predicate Rising(f: nat -> CpuSet, node: CpuSet, w: Walk) {
    forall c :: c in node ==> Ascends(w.order, f(c))
  }

  /** The set of `c`, or `c` alone where it has none, meets no other set. */
  ghost predicate Opens(f: nat -> CpuSet, c: nat, s: CpuSet) {
    s == if f(c) == {} then {c} else f(c)
  }

  lemma MeetsNoOther(f: nat -> CpuSet, node: CpuSet, c: nat, s: CpuSet, d: nat)
    requires Classes(f, node) && c in node && d in node && Opens(f, c, s)
    ensures f(d) == s || f(d) !! s
  {
    if x :| x in f(d) && x in s {
      assert f(x) == f(d);
      assert f(c) != {} ==> f(x) == f(c);
      assert f(c) == {} ==> x == c;
    }
  }

  lemma GroupedMore(f: nat -> CpuSet, node: CpuSet, w: Walk, c: nat, more: seq<nat>, z: Walk)
    requires Classes(f, node) && c in node && Opens(f, c, Elems(more)) && Elems(more) !! w.visited
    requires Elems(w.order) == w.visited && Grouped(f, node, w) && z == Walk(w.order + more, w.visited + Elems(more))
    ensures Grouped(f, node, z)
    ensures Rising(f, node, w) && Ascends(more, Elems(more)) ==> Rising(f, node, z)
  {
    forall d | d in node
      ensures (f(d) <= z.visited || f(d) !! z.visited) && Contiguous(z.order, f(d))
      ensures Rising(f, node, w) && Ascends(more, Elems(more)) ==> Ascends(z.order, f(d))
    {
      MeetsNoOther(f, node, c, Elems(more), d);
      if f(d) == Elems(more) {
        BlockWhole(w.order, more, f(d));
      } else {
        BlockApart(w.order, more, f(d));
      }
    }
  }

  // ----- a cluster -----

  /** What the walk has so far is as it should be. */
  ghost predicate Tidy(topo: Topology, node: CpuSet, w: Walk) {
    Walked(node, w) && Grouped(Siblings(topo, node), node, w) && Rising(Siblings(topo, node), node, w)
  }

  /** In a cluster that no sibling set leaves, the atom a CPU opens is its whole sibling set. */
  lemma AtomIs(topo: Topology, node: CpuSet, cluster: CpuSet, w: Walk, c: nat)
    requires Consistent(topo, node) && Tidy(topo, node, w) && c in cluster && cluster <= node && c !in w.visited
    requires Siblings(topo, node)(c) <= cluster
    ensures Opens(Siblings(topo, node), c, Atom(topo, cluster, w.visited, c))
  {
    var s := Siblings(topo, node)(c);
    assert Mask(topo.sibling, c) * cluster == s;
    assert s != {} ==> c in s;
    assert s !! w.visited;
    assert s - w.visited == s;
  }

  ghost function AtomStep(topo: Topology, cluster: CpuSet, w: Walk, c: nat): Walk {
    var atom := Atom(topo, cluster, w.visited, c);
    Walk(w.order + Asc(atom), w.visited + atom)
  }

  lemma AtomKeeps(topo: Topology, node: CpuSet, cluster: CpuSet, w: Walk, c: nat)
    requires Consistent(topo, node) && Tidy(topo, node, w) && c in cluster && cluster <= node && c !in w.visited
    requires Siblings(topo, node)(c) <= cluster
    ensures var z := AtomStep(topo, cluster, w, c);
            Tidy(topo, node, z) && c in z.visited && z.visited <= w.visited + cluster
  {
    var atom := Atom(topo, cluster, w.visited, c);
    AtomIs(topo, node, cluster, w, c);
    WalkMore(node, w, atom);
    AscAscends(atom);
    GroupedMore(Siblings(topo, node), node, w, c, Asc(atom), AtomStep(topo, cluster, w, c));
  }

  /** Placing an atom of the cluster keeps `tidy`, places the CPU that opens it, and nothing from elsewhere. */
  ghost predicate AtomsKeep(topo: Topology, cluster: CpuSet, tidy: Walk -> bool) {
    forall w: Walk, c: nat {:trigger AtomStep(topo, cluster, w, c)} :: c in cluster && c !in w.visited && tidy(w) ==>
      && tidy(AtomStep(topo, cluster, w, c))
      && c in AtomStep(topo, cluster, w, c).visited && AtomStep(topo, cluster, w, c).visited <= w.visited + cluster
  }

  lemma {:induction false} ClusterKeeps(topo: Topology, cluster: CpuSet, tidy: Walk -> bool, cs: seq<nat>, w: Walk)
    requires AtomsKeep(topo, cluster, tidy) && tidy(w) && forall i :: 0 <= i < |cs| ==> cs[i] in cluster
    ensures var z := WalkCluster(topo, cluster, cs, w);
            && tidy(z) && w.order <= z.order && w.visited <= z.visited <= w.visited + cluster
            && forall i :: 0 <= i < |cs| ==> cs[i] in z.visited
    decreases |cs|
  {
    if cs != [] {
      var w1 := if cs[0] in w.visited then w else AtomStep(topo, cluster, w, cs[0]);
      var rest := cs[1..];
      assert forall i :: 0 <= i < |rest| ==> rest[i] == cs[i + 1];
      ClusterKeeps(topo, cluster, tidy, rest, w1);
      var z := WalkCluster(topo, cluster, cs, w);
      assert cs[0] in w1.visited && w1.visited <= z.visited;
      forall i | 0 < i < |cs| ensures cs[i] in z.visited {
        assert rest[i - 1] in z.visited;
      }
    }
  }

  ghost function TidyOf(topo: Topology, node: CpuSet): Walk -> bool {
    (w: Walk) => Tidy(topo, node, w)
  }

  lemma TidyAtoms(topo: Topology, node: CpuSet, cluster: CpuSet)
    requires Consistent(topo, node) && cluster <= node
    requires forall c :: c in cluster ==> Siblings(topo, node)(c) <= cluster
    ensures AtomsKeep(topo, cluster, TidyOf(topo, node))
  {
    var tidy := TidyOf(topo, node);
    forall w: Walk, c: nat | c in cluster && c !in w.visited && tidy(w)
      ensures tidy(AtomStep(topo, cluster, w, c))
      ensures c in AtomStep(topo, cluster, w, c).visited && AtomStep(topo, cluster, w, c).visited <= w.visited + cluster
    {
      AtomKeeps(topo, node, cluster, w, c);
    }
  }

  // ----- a node -----

  ghost predicate Kept(topo: Topology, node: CpuSet, w: Walk) {
    Tidy(topo, node, w) && Grouped(Clusters(topo, node), node, w)
  }

  /** The cluster a CPU opens is its whole cluster, and no sibling set leaves it. */
  lemma ClusterIs(topo: Topology, node: CpuSet, w: Walk, cpu: nat, cluster: CpuSet)
    requires Consistent(topo, node) && Kept(topo, node, w) && cpu in node && cpu !in w.visited
    requires cluster == Cluster(topo, node, w.visited, cpu)
    ensures Opens(Clusters(topo, node), cpu, cluster) && cluster !! w.visited && cluster <= node
    ensures forall c :: c in cluster ==> Siblings(topo, node)(c) <= cluster
  {
    var s := Clusters(topo, node)(cpu);
    assert s != {} ==> cpu in s;
    assert s !! w.visited;
    assert s - w.visited == s;
    forall c | c in cluster ensures Siblings(topo, node)(c) <= cluster {
      assert Siblings(topo, node)(c) <= Clusters(topo, node)(c);
      assert c == cpu || Clusters(topo, node)(c) == s;
    }
  }

  /** What a walk adds, as a block of its own. */
  lemma Added(node: CpuSet, w: Walk, z: Walk, s: CpuSet)
    requires Walked(node, w) && Walked(node, z) && w.order <= z.order && z.visited == w.visited + s && s !! w.visited
    ensures z.order == w.order + z.order[|w.order|..] && Elems(z.order[|w.order|..]) == s
  {
    var more := z.order[|w.order|..];
    assert z.order == w.order + more;
    forall x ensures x in Elems(more) <==> x in s {
      assert x in Elems(z.order) <==> x in w.order || x in more;
      assert x in Elems(w.order) <==> x in w.order;
    }
  }

  lemma TurnAdds(topo: Topology, cluster: CpuSet, tidy: Walk -> bool, w: Walk, z: Walk)
    requires AtomsKeep(topo, cluster, tidy) && tidy(w) && z == WalkCluster(topo, cluster, Asc(cluster), w)
    ensures tidy(z) && w.order <= z.order && z.visited == w.visited + cluster
  {
    var cs := Asc(cluster);
    assert forall i :: 0 <= i < |cs| ==> cs[i] in Elems(cs);
    ClusterKeeps(topo, cluster, tidy, cs, w);
    forall c | c in cluster ensures c in z.visited {
      assert c in Elems(cs);
    }
  }

  lemma TurnKeeps(topo: Topology, node: CpuSet, w: Walk, cpu: nat, z: Walk)
    requires Consistent(topo, node) && Kept(topo, node, w) && cpu in node && cpu !in w.visited
    requires var cluster := Cluster(topo, node, w.visited, cpu); z == WalkCluster(topo, cluster, Asc(cluster), w)
    ensures Kept(topo, node, z) && cpu in z.visited && w.visited <= z.visited
  {
    var cluster := Cluster(topo, node, w.visited, cpu);
    ClusterIs(topo, node, w, cpu, cluster);
    TidyAtoms(topo, node, cluster);
    TurnAdds(topo, cluster, TidyOf(topo, node), w, z);
    Added(node, w, z, cluster);
    GroupedMore(Clusters(topo, node), node, w, cpu, z.order[|w.order|..], z);
  }

  ghost function TurnStep(topo: Topology, node: CpuSet, w: Walk, cpu: nat): Walk {
    var cluster := Cluster(topo, node, w.visited, cpu);
    WalkCluster(topo, cluster, Asc(cluster), w)
  }

  /** A turn keeps `kept`, places its CPU and loses none. */
  ghost predicate TurnsKeep(topo: Topology, node: CpuSet, kept: Walk -> bool) {
    forall w: Walk, c: nat {:trigger TurnStep(topo, node, w, c)} :: c in node && c !in w.visited && kept(w) ==>
      kept(TurnStep(topo, node, w, c)) && c in TurnStep(topo, node, w, c).visited && w.visited <= TurnStep(topo, node, w, c).visited
  }

  lemma {:induction false} NodeKeeps(topo: Topology, node: CpuSet, kept: Walk -> bool, cpus: seq<nat>, w: Walk)
    requires TurnsKeep(topo, node, kept) && kept(w) && forall i :: 0 <= i < |cpus| ==> cpus[i] in node
    ensures var z := WalkNode(topo, node, cpus, w);
            kept(z) && w.visited <= z.visited && forall i :: 0 <= i < |cpus| ==> cpus[i] in z.visited
    decreases |cpus|
  {
    if cpus != [] {
      var w1 := if cpus[0] in w.visited then w else TurnStep(topo, node, w, cpus[0]);
      var rest := cpus[1..];
      assert forall i :: 0 <= i < |rest| ==> rest[i] == cpus[i + 1];
      NodeKeeps(topo, node, kept, rest, w1);
      var z := WalkNode(topo, node, cpus, w);
      assert cpus[0] in w1.visited && w1.visited <= z.visited;
      forall i | 0 < i < |cpus| ensures cpus[i] in z.visited {
        assert rest[i - 1] in z.visited;
      }
    }
  }

  ghost function KeptOf(topo: Topology, node: CpuSet): Walk -> bool {
    (w: Walk) => Kept(topo, node, w)
  }

  lemma KeptTurns(topo: Topology, node: CpuSet)
    requires Consistent(topo, node)
    ensures TurnsKeep(topo, node, KeptOf(topo, node))
  {
    var kept := KeptOf(topo, node);
    forall w: Walk, c: nat | c in node && c !in w.visited && kept(w)
      ensures kept(TurnStep(topo, node, w, c)) && c in TurnStep(topo, node, w, c).visited
      ensures w.visited <= TurnStep(topo, node, w, c).visited
    {
      TurnKeeps(topo, node, w, c, TurnStep(topo, node, w, c));
    }
  }

  lemma StartsKept(topo: Topology, node: CpuSet)
    ensures Kept(topo, node, Walk([], {}))
  {
    var none: seq<nat> := [];
    assert Elems(none) == {};
  }

  /** Clusters and sibling sets are contiguous, siblings ascend. */
  ghost predicate Together(topo: Topology, node: CpuSet, order: seq<nat>) {
    forall c :: c in node ==>
      && Contiguous(order, ClusterOf(topo, c) * node)
      && Contiguous(order, Mask(topo.sibling, c) * node) && Ascends(order, Mask(topo.sibling, c) * node)
  }

  lemma KeptTogether(topo: Topology, node: CpuSet, w: Walk)
    requires Kept(topo, node, w)
    ensures Together(topo, node, w.order)
  {
    forall c | c in node
      ensures Contiguous(w.order, ClusterOf(topo, c) * node) && Contiguous(w.order, Mask(topo.sibling, c) * node)
      ensures Ascends(w.order, Mask(topo.sibling, c) * node)
    {
      assert Contiguous(w.order, Clusters(topo, node)(c)) && Contiguous(w.order, Siblings(topo, node)(c));
      assert Ascends(w.order, Siblings(topo, node)(c));
    }
  }

  /**
    Locality. On a node whose masks are consistent, the fill order has every CPU
    once, keeps every cluster and every sibling set contiguous, and lists
    siblings in ascending order.
   */
  lemma OrderKeepsTogether(topo: Topology, node: CpuSet)
    requires Consistent(topo, node)
    ensures var order := Order(topo, node); Distinct(order) && Elems(order) == node && Together(topo, node, order)
  {
    var cpus := Asc(node);
    var z := WalkNode(topo, node, cpus, Walk([], {}));
    StartsKept(topo, node);
    assert forall i :: 0 <= i < |cpus| ==> cpus[i] in Elems(cpus);
    KeptTurns(topo, node);
    NodeKeeps(topo, node, KeptOf(topo, node), cpus, Walk([], {}));
    forall c | c in node ensures c in z.visited {
      assert c in Elems(cpus);
    }
    KeptTogether(topo, node, z);
  }

  /** Masks that are not: `z` names `x` as a sibling, but `x` does not name `z`. */
  ghost predicate Lopsided(topo: Topology, node: CpuSet, x: nat, y: nat, z: nat) {
    && x < y < z && node == {x, y, z} && (forall c :: c in node ==> ClusterOf(topo, c) == Mask(topo.sibling, c))
    && Mask(topo.sibling, x) == {x} && Mask(topo.sibling, y) == {y} && Mask(topo.sibling, z) == {x, z}
  }

  lemma LopsidedTurns(topo: Topology, node: CpuSet, x: nat, y: nat, z: nat, w: Walk, w1: Walk, w2: Walk)
    requires Lopsided(topo, node, x, y, z) && w == Walk([], {}) && w1 == Walk([x], {x}) && w2 == Walk([x, y], {x, y})
    ensures CpuTurns.Turn(topo, node, w, x) == w1 && CpuTurns.Turn(topo, node, w1, y) == w2
    ensures CpuTurns.Turn(topo, node, w2, z).order == [x, y, z]
  {
    assert ClusterOf(topo, x) * node - {} == {x};
    assert ClusterOf(topo, y) * node - {x} == {y};
    assert ClusterOf(topo, z) * node - {x, y} == {z};
    CpuTurns.SoloTurn(topo, node, w, x);
    CpuTurns.SoloTurn(topo, node, w1, y);
    CpuTurns.SoloTurn(topo, node, w2, z);
    assert [] + [x] == [x] && [x] + [y] == [x, y] && [x, y] + [z] == [x, y, z];
    assert {} + {x} == {x} && {x} + {y} == {x, y};
  }

  lemma LopsidedOrder(topo: Topology, node: CpuSet, x: nat, y: nat, z: nat)
    requires Lopsided(topo, node, x, y, z)
    ensures Order(topo, node) == [x, y, z]
  {
    var w := Walk([], {});
    CpuTurns.AscOfThree(x, y, z, node);
    LopsidedTurns(topo, node, x, y, z, w, Walk([x], {x}), Walk([x, y], {x, y}));
    CpuTurns.ThreeTurns(topo, node, x, y, z, w);
  }

  /** Then a sibling set is not contiguous. */
  lemma LopsidedIsSplit(topo: Topology, node: CpuSet, x: nat, y: nat, z: nat)
    requires Lopsided(topo, node, x, y, z)
    ensures !Contiguous(Order(topo, node), Mask(topo.sibling, z) * node)
  {
    LopsidedOrder(topo, node, x, y, z);
    var order := Order(topo, node);
    assert order[0] == x && order[1] == y && order[2] == z;
  }

  // ----- groups -----

  /** Where in the order the `i`-th CPU kept comes from. */
  ghost function Origin(order: seq<nat>, s: CpuSet, i: nat): (p: nat)
    requires i < |Keep(order, s, true)|
    ensures p < |order| && order[p] == Keep(order, s, true)[i]
    decreases |order|
  {
    var n := |order| - 1;
    if i < |Keep(order[..n], s, true)| then Origin(order[..n], s, i) else n
  }

  lemma {:induction false} OriginGrows(order: seq<nat>, s: CpuSet, i: nat, j: nat)
    requires i <= j < |Keep(order, s, true)|
    ensures Origin(order, s, i) <= Origin(order, s, j)
    decreases |order|
  {
    var n := |order| - 1;
    if j < |Keep(order[..n], s, true)| {
      OriginGrows(order[..n], s, i, j);
    }
  }

  /** Leaving CPUs out leaves a contiguous set contiguous. */
  lemma KeepContiguous(order: seq<nat>, present: CpuSet, s: CpuSet)
    requires Contiguous(order, s)
    ensures Contiguous(Keep(order, present, true), s)
  {
    var here := Keep(order, present, true);
    forall i, j, k | 0 <= i <= j <= k < |here| && here[i] in s && here[k] in s ensures here[j] in s {
      OriginGrows(order, present, i, j);
      OriginGrows(order, present, j, k);
      assert order[Origin(order, present, j)] == here[j];
    }
  }

  /** The boundary behind group `g` runs through `s`. */
  ghost predicate Divided(groups: seq<CpuSet>, s: CpuSet, g: nat) {
    exists x, y :: x in s && y in s && UpTo(groups, g, x) && Past(groups, g, y)
  }

  ghost predicate Listed(cpus: seq<nat>, s: CpuSet) {
    forall x :: x in s ==> x in cpus
  }

  lemma Precedes(cpus: seq<nat>, groups: seq<CpuSet>, g: nat, a: nat, b: nat)
    requires InTurn(cpus, groups) && a < |cpus| && b < |cpus| && UpTo(groups, g, cpus[a]) && Past(groups, g, cpus[b])
    ensures a <= b
  {
  }

  /** Two contiguous sets that the same boundary divides have a CPU in common. */
  lemma DividedMeet(cpus: seq<nat>, groups: seq<CpuSet>, s: CpuSet, t: CpuSet, g: nat)
    requires InTurn(cpus, groups) && Contiguous(cpus, s) && Contiguous(cpus, t)
    requires Divided(groups, s, g) && Divided(groups, t, g) && Listed(cpus, s) && Listed(cpus, t)
    ensures s * t != {}
  {
    var a, b := DividedAt(cpus, groups, s, g);
    var c, d := DividedAt(cpus, groups, t, g);
    Precedes(cpus, groups, g, a, d);
    Precedes(cpus, groups, g, c, b);
    Overlap(cpus, s, t, a, b, c, d);
  }

  /** A CPU of `s` up to the boundary, and one behind it, in the list. */
  lemma DividedAt(cpus: seq<nat>, groups: seq<CpuSet>, s: CpuSet, g: nat) returns (a: nat, b: nat)
    requires Divided(groups, s, g) && Listed(cpus, s)
    ensures a < |cpus| && b < |cpus| && cpus[a] in s && cpus[b] in s && UpTo(groups, g, cpus[a]) && Past(groups, g, cpus[b])
  {
    var x, y :| x in s && y in s && UpTo(groups, g, x) && Past(groups, g, y);
    a :| 0 <= a < |cpus| && cpus[a] == x;
    b :| 0 <= b < |cpus| && cpus[b] == y;
  }

  lemma Overlap(cpus: seq<nat>, s: CpuSet, t: CpuSet, a: nat, b: nat, c: nat, d: nat)
    requires Contiguous(cpus, s) && Contiguous(cpus, t) && a <= d < |cpus| && c <= b < |cpus|
    requires cpus[a] in s && cpus[b] in s && cpus[c] in t && cpus[d] in t
    ensures s * t != {}
  {
    if a <= c {
      assert cpus[c] in s;
      assert cpus[c] in s * t;
    } else {
      assert cpus[a] in t;
      assert cpus[a] in s * t;
    }
  }

  lemma PresentListed(topo: Topology, node: CpuSet, s: CpuSet)
    requires Elems(Order(topo, node)) == node
    ensures Listed(Keep(Order(topo, node), topo.present, true), s * node * topo.present)
  {
    forall x: nat | x in s * node * topo.present ensures x in Keep(Order(topo, node), topo.present, true) {
      assert x in Elems(Order(topo, node));
      KeepHas(Order(topo, node), topo.present, true, x);
    }
  }

  lemma {:induction false} PresentContiguous(order: seq<nat>, present: CpuSet, s: CpuSet)
    requires Contiguous(order, s)
    ensures Contiguous(Keep(order, present, true), s * present)
  {
    var here := Keep(order, present, true);
    KeepContiguous(order, present, s);
    forall i | 0 <= i < |here| ensures here[i] in present {
      KeepHas(order, present, true, here[i]);
    }
  }

  lemma TwoMeet(topo: Topology, node: CpuSet, groups: seq<CpuSet>, s: CpuSet, t: CpuSet, g: nat)
    requires InTurn(Keep(Order(topo, node), topo.present, true), groups) && Elems(Order(topo, node)) == node
    requires Contiguous(Order(topo, node), s * node) && Contiguous(Order(topo, node), t * node)
    requires Divided(groups, s * node * topo.present, g) && Divided(groups, t * node * topo.present, g)
    ensures (s * node) * (t * node) != {}
  {
    var cpus := Keep(Order(topo, node), topo.present, true);
    PresentListed(topo, node, s);
    PresentListed(topo, node, t);
    PresentContiguous(Order(topo, node), topo.present, s * node);
    PresentContiguous(Order(topo, node), topo.present, t * node);
    DividedMeet(cpus, groups, s * node * topo.present, t * node * topo.present, g);
  }

  lemma SharedMeansSame(f: nat -> CpuSet, node: CpuSet, c: nat, d: nat)
    requires Classes(f, node) && c in node && d in node && f(c) * f(d) != {}
    ensures f(c) == f(d)
  {
    var x :| x in f(c) * f(d);
    assert f(x) == f(c) && f(x) == f(d);
  }

  /** The boundary behind group `g` runs through the present CPUs of both sets. */
  ghost predicate DividesBoth(groups: seq<CpuSet>, g: nat, present: CpuSet, s: CpuSet, t: CpuSet) {
    Divided(groups, s * present, g) && Divided(groups, t * present, g)
  }

  /**
    Siblings stay together as far as the group sizes allow: in any grouping of a
    node's present CPUs in its fill order, the boundary behind a group divides
    at most one sibling set, and at most one cluster.
   */
  lemma BoundaryDividesOne(topo: Topology, node: CpuSet, groups: seq<CpuSet>, g: nat, c: nat, d: nat)
    requires Consistent(topo, node) && InTurn(Keep(Order(topo, node), topo.present, true), groups) && c in node && d in node
    ensures DividesBoth(groups, g, topo.present, Mask(topo.sibling, c) * node, Mask(topo.sibling, d) * node) ==>
              Mask(topo.sibling, c) * node == Mask(topo.sibling, d) * node
    ensures DividesBoth(groups, g, topo.present, ClusterOf(topo, c) * node, ClusterOf(topo, d) * node) ==>
              ClusterOf(topo, c) * node == ClusterOf(topo, d) * node
  {
    OrderKeepsTogether(topo, node);
    if DividesBoth(groups, g, topo.present, Mask(topo.sibling, c) * node, Mask(topo.sibling, d) * node) {
      TwoMeet(topo, node, groups, Mask(topo.sibling, c), Mask(topo.sibling, d), g);
      SharedMeansSame(Siblings(topo, node), node, c, d);
    }
    if DividesBoth(groups, g, topo.present, ClusterOf(topo, c) * node, ClusterOf(topo, d) * node) {
      TwoMeet(topo, node, groups, ClusterOf(topo, c), ClusterOf(topo, d), g);
      SharedMeansSame(Clusters(topo, node), node, c, d);
    }
  }
}
