/**
  The fill order of one given node, turn by turn: when every CPU that has not
  been placed by its turn opens that turn itself, exactly.
 */
module CpuTurns {
  import opened CpuSpread

  function Below(node: CpuSet, x: nat): CpuSet {
    set y | y in node && y < x
  }

  /** The walk when the turns of all CPUs below `x` are over. */
  ghost function Until(topo: Topology, node: CpuSet, x: nat): Walk {
    WalkNode(topo, node, Asc(Below(node, x)), Walk([], {}))
  }

  /** The turn of `x`. */
  ghost function Turn(topo: Topology, node: CpuSet, w: Walk, x: nat): Walk {
    if x in w.visited then w
    else
      var cluster := Cluster(topo, node, w.visited, x);
      WalkCluster(topo, cluster, Asc(cluster), w)
  }

  // ----- the walk as a sequence of turns -----

  lemma {:induction false} WalkAppend(topo: Topology, node: CpuSet, a: seq<nat>, b: seq<nat>, w: Walk)
    ensures WalkNode(topo, node, a + b, w) == WalkNode(topo, node, b, WalkNode(topo, node, a, w))
    decreases |a|
  {
    if a == [] {
      assert a + b == b;
    } else {
      assert (a + b)[1..] == a[1..] + b;
      WalkAppend(topo, node, a[1..], b, Turn(topo, node, w, a[0]));
    }
  }

  lemma {:induction false} AscSnoc(s: CpuSet, x: nat)
    requires forall y :: y in s ==> y < x
    ensures Asc(s + {x}) == Asc(s) + [x]
    decreases s
  {
    if s == {} {
      AscIs({x}, x);
      assert {x} - {x} == {} && s + {x} == {x};
    } else {
      var m := Least(s);
      var rest := s - {m};
      assert s + {x} - {m} == rest + {x} && IsLeast(s + {x}, m);
      AscSnoc(rest, x);
      AscIs(s, m);
      AscIs(s + {x}, m);
      Regroup(m, Asc(rest), x);
    }
  }

  lemma Regroup(m: nat, rest: seq<nat>, x: nat)
    ensures [m] + (rest + [x]) == ([m] + rest) + [x]
  {
  }

  lemma UntilNext(topo: Topology, node: CpuSet, x: nat)
    ensures Until(topo, node, x + 1) == if x in node then Turn(topo, node, Until(topo, node, x), x) else Until(topo, node, x)
  {
    if x in node {
      assert Below(node, x + 1) == Below(node, x) + {x};
      AscSnoc(Below(node, x), x);
      WalkAppend(topo, node, Asc(Below(node, x)), [x], Walk([], {}));
      OneTurn(topo, node, Until(topo, node, x), x);
    } else {
      assert Below(node, x + 1) == Below(node, x);
    }
  }

  lemma OneTurn(topo: Topology, node: CpuSet, w: Walk, x: nat)
    ensures WalkNode(topo, node, [x], w) == Turn(topo, node, w, x)
  {
    assert [x][1..] == [];
  }

  lemma {:induction false} ClusterGrows(topo: Topology, cluster: CpuSet, cs: seq<nat>, w: Walk)
    ensures var z := WalkCluster(topo, cluster, cs, w); w.order <= z.order && w.visited <= z.visited
    decreases |cs|
  {
    if cs != [] {
      var atom := Atom(topo, cluster, w.visited, cs[0]);
      var w1 := if cs[0] in w.visited then w else Walk(w.order + Asc(atom), w.visited + atom);
      ClusterGrows(topo, cluster, cs[1..], w1);
    }
  }

  lemma UntilWalked(topo: Topology, node: CpuSet, x: nat)
    ensures Walked(node, Until(topo, node, x))
  {
    assert Elems([]) == {};
    NodeWalked(topo, node, Below(node, x), Walk([], {}));
  }

  /** Past every CPU the walk is over. */
  lemma UntilEnd(topo: Topology, node: CpuSet, x: nat)
    requires forall y :: y in node ==> y < x
    ensures Until(topo, node, x) == WalkNode(topo, node, Asc(node), Walk([], {}))
  {
    assert Below(node, x) == node;
  }

  lemma Above(node: CpuSet) returns (x: nat)
    ensures forall y :: y in node ==> y < x
  {
    if node == {} {
      x := 0;
    } else {
      var m :| m in node;
      var r := Above(node - {m});
      x := if r > m then r else m + 1;
      assert forall y :: y in node ==> y == m || y in node - {m};
    }
  }

  // ----- one turn -----

  /** The first CPU a cluster's walk places is the lowest of its lowest CPU's atom. */
  lemma ClusterOpens(topo: Topology, cluster: CpuSet, w: Walk, c: nat)
    requires IsLeast(cluster, c) && c !in w.visited
    ensures var z := WalkCluster(topo, cluster, Asc(cluster), w);
            |w.order| < |z.order| && z.order[|w.order|] == Least(Atom(topo, cluster, w.visited, c))
  {
    AscIs(cluster, c);
    var atom := Atom(topo, cluster, w.visited, c);
    var w1 := Walk(w.order + Asc(atom), w.visited + atom);
    ClusterGrows(topo, cluster, Asc(cluster)[1..], w1);
    AscIs(atom, Least(atom));
    assert w1.order[|w.order|] == Asc(atom)[0];
  }

  /** `y` is still to be placed when the turn of `x` comes, and takes its place. */
  ghost predicate Shaded(topo: Topology, node: CpuSet, w: Walk, x: nat, y: nat) {
    y in node && y !in w.visited && Shadowed(topo, x, y)
  }

  lemma TurnOpens(topo: Topology, node: CpuSet, w: Walk, x: nat)
    requires x in node && x !in w.visited && Below(node, x) <= w.visited && forall y :: !Shaded(topo, node, w, x, y)
    ensures var z := Turn(topo, node, w, x); |w.order| < |z.order| && z.order[|w.order|] == x
  {
    var found := ClusterOf(topo, x) * node - w.visited;
    assert forall z :: z in found && z != x ==> x < z;
    assert forall z :: z in found ==> x in found || Shaded(topo, node, w, x, z);
    var cluster := Cluster(topo, node, w.visited, x);
    assert IsLeast(cluster, x);
    var sibs := Mask(topo.sibling, x) * cluster - w.visited;
    assert forall z :: z in sibs ==> x in sibs || Shaded(topo, node, w, x, z);
    var atom := Atom(topo, cluster, w.visited, x);
    assert IsLeast(atom, x);
    ClusterOpens(topo, cluster, w, x);
  }

  /** The CPU whose turn it is is then no part of the first atom. */
  lemma NotInAtom(topo: Topology, node: CpuSet, w: Walk, x: nat, y: nat, cluster: CpuSet, c: nat)
    requires x in node && x !in w.visited && Below(node, x) <= w.visited && Shaded(topo, node, w, x, y)
    requires cluster == Cluster(topo, node, w.visited, x) && IsLeast(cluster, c)
    ensures c !in w.visited && x !in Atom(topo, cluster, w.visited, c)
  {
    var found := ClusterOf(topo, x) * node - w.visited;
    assert y in found && cluster == found;
    assert c !in Below(node, x);
    if x in ClusterOf(topo, x) {
      assert x in found && c == x;
      assert y in Mask(topo.sibling, x) * cluster - w.visited;
    }
  }

  lemma TurnPassesOver(topo: Topology, node: CpuSet, w: Walk, x: nat, y: nat)
    requires x in node && x !in w.visited && Below(node, x) <= w.visited && Shaded(topo, node, w, x, y)
    ensures var z := Turn(topo, node, w, x); |w.order| < |z.order| && z.order[|w.order|] != x
  {
    var cluster := Cluster(topo, node, w.visited, x);
    var c := Least(cluster);
    NotInAtom(topo, node, w, x, y, cluster, c);
    ClusterOpens(topo, cluster, w, c);
  }

  // ----- all turns -----

  /** A sequence of turns: `u(x)` is the state before the turn of `x`; `shade` says when that turn goes to another. */
  datatype Turns = Turns(u: nat -> Walk, turn: (Walk, nat) -> Walk, shade: (Walk, nat) -> bool, node: CpuSet) {
    ghost predicate StepAt(x: nat) {
      u(x + 1) == if x in node then turn(u(x), x) else u(x)
    }

    ghost predicate GrowAt(w: Walk, x: nat) {
      w.order <= turn(w, x).order && w.visited <= turn(w, x).visited
    }

    ghost predicate OpenAt(w: Walk, x: nat) {
      x in node && x !in w.visited && Below(node, x) <= w.visited ==>
        |w.order| < |turn(w, x).order| && (turn(w, x).order[|w.order|] == x <==> !shade(w, x))
    }

    ghost predicate Good() {
      && (forall x: nat :: StepAt(x)) && (forall w: Walk, x: nat :: GrowAt(w, x)) && (forall w: Walk, x: nat :: OpenAt(w, x))
      && (forall x: nat :: Elems(u(x).order) == u(x).visited)
    }

    /** If `x` has not been placed by its turn, it is what the order up to `e` lists next. */
    ghost predicate Opens(x: nat, e: nat) {
      x in node && x !in u(x).visited ==> |u(x).order| < |u(e).order| && u(e).order[|u(x).order|] == x
    }

    ghost predicate Clear(x: nat) {
      x in node && x !in u(x).visited ==> !shade(u(x), x)
    }
  }

  lemma {:induction false} Grows(t: Turns, x: nat, y: nat)
    requires t.Good() && x <= y
    ensures t.u(x).order <= t.u(y).order && t.u(x).visited <= t.u(y).visited
    decreases y
  {
    if x < y {
      Grows(t, x, y - 1);
      assert t.StepAt(y - 1) && t.GrowAt(t.u(y - 1), y - 1);
    }
  }

  lemma OpensIff(t: Turns, x: nat, e: nat)
    requires t.Good() && x < e && Below(t.node, x) <= t.u(x).visited
    ensures t.Opens(x, e) <==> t.Clear(x)
  {
    assert t.StepAt(x) && t.OpenAt(t.u(x), x);
    Grows(t, x + 1, e);
  }

  /** A turn that is clear places its CPU. */
  lemma ClearPlaces(t: Turns, x: nat)
    requires t.Good() && Below(t.node, x) <= t.u(x).visited && t.Clear(x)
    ensures Below(t.node, x + 1) <= t.u(x + 1).visited
  {
    assert t.StepAt(x) && t.OpenAt(t.u(x), x);
    Grows(t, x, x + 1);
    if x in t.node && x !in t.u(x).visited {
      assert x in t.u(x + 1).order;
      assert x in Elems(t.u(x + 1).order);
    }
    assert forall y :: y in Below(t.node, x + 1) ==> y == x || y in Below(t.node, x);
  }

  lemma {:induction false} AllPlaced(t: Turns, x: nat, e: nat)
    requires t.Good() && x <= e && forall z: nat :: z < x ==> t.Clear(z) || t.Opens(z, e)
    ensures Below(t.node, x) <= t.u(x).visited && forall z: nat :: z < x ==> (t.Clear(z) && t.Opens(z, e))
    decreases x
  {
    if x > 0 {
      AllPlaced(t, x - 1, e);
      assert t.Clear(x - 1) || t.Opens(x - 1, e);
      OpensIff(t, x - 1, e);
      ClearPlaces(t, x - 1);
    }
  }

  // ----- the turns of a node -----

  ghost function TurnsOf(topo: Topology, node: CpuSet): Turns {
    Turns((x: nat) => Until(topo, node, x), (w: Walk, x: nat) => Turn(topo, node, w, x),
          (w: Walk, x: nat) => exists y :: Shaded(topo, node, w, x, y), node)
  }

  lemma TurnOpensIff(topo: Topology, node: CpuSet, w: Walk, x: nat)
    requires x in node && x !in w.visited && Below(node, x) <= w.visited
    ensures var z := Turn(topo, node, w, x);
            |w.order| < |z.order| && (z.order[|w.order|] == x <==> !exists y :: Shaded(topo, node, w, x, y))
  {
    if y :| Shaded(topo, node, w, x, y) {
      TurnPassesOver(topo, node, w, x, y);
    } else {
      TurnOpens(topo, node, w, x);
    }
  }

  lemma TurnGrows(topo: Topology, node: CpuSet, w: Walk, x: nat)
    ensures w.order <= Turn(topo, node, w, x).order && w.visited <= Turn(topo, node, w, x).visited
  {
    var cluster := Cluster(topo, node, w.visited, x);
    ClusterGrows(topo, cluster, Asc(cluster), w);
  }

  lemma TurnsAreGood(topo: Topology, node: CpuSet)
    ensures TurnsOf(topo, node).Good()
  {
    var t := TurnsOf(topo, node);
    forall x: nat ensures t.StepAt(x) {
      UntilNext(topo, node, x);
    }
    forall w: Walk, x: nat ensures t.GrowAt(w, x) {
      TurnGrows(topo, node, w, x);
    }
    forall w: Walk, x: nat ensures t.OpenAt(w, x) {
      if x in node && x !in w.visited && Below(node, x) <= w.visited {
        TurnOpensIff(topo, node, w, x);
      }
    }
    forall x: nat ensures Elems(t.u(x).order) == t.u(x).visited {
      UntilWalked(topo, node, x);
    }
  }

  /** If `x` has not been placed by its turn, it is what the order lists next. */
  ghost predicate OpensItself(topo: Topology, node: CpuSet, x: nat) {
    var w := Until(topo, node, x);
    x in node && x !in w.visited ==> |w.order| < |Order(topo, node)| && Order(topo, node)[|w.order|] == x
  }

  /** When the turn of `x` comes and it is not placed, no later CPU that is not placed either shadows it. */
  ghost predicate Unshaded(topo: Topology, node: CpuSet, x: nat) {
    var w := Until(topo, node, x);
    x in node && x !in w.visited ==> !exists y :: Shaded(topo, node, w, x, y)
  }

  lemma AsTurns(topo: Topology, node: CpuSet, x: nat, e: nat)
    requires Until(topo, node, e).order == Order(topo, node)
    ensures OpensItself(topo, node, x) <==> TurnsOf(topo, node).Opens(x, e)
    ensures Unshaded(topo, node, x) <==> TurnsOf(topo, node).Clear(x)
  {
  }

  lemma EachTurn(topo: Topology, node: CpuSet, e: nat)
    requires (forall y :: y in node ==> y < e)
    requires forall x: nat :: OpensItself(topo, node, x) || Unshaded(topo, node, x)
    ensures forall x: nat :: OpensItself(topo, node, x) && Unshaded(topo, node, x)
    ensures node <= Until(topo, node, e).visited
  {
    var t := TurnsOf(topo, node);
    TurnsAreGood(topo, node);
    UntilEnd(topo, node, e);
    forall x: nat ensures t.Clear(x) || t.Opens(x, e) {
      AsTurns(topo, node, x, e);
    }
    AllPlaced(t, e, e);
    forall x: nat ensures OpensItself(topo, node, x) && Unshaded(topo, node, x) {
      AsTurns(topo, node, x, e);
    }
    assert Below(node, e) == node;
  }

  /**
    For one given node, exactly: every CPU not placed by its turn is what the
    fill order lists next if and only if no CPU is shadowed, in its turn, by a
    later one that the turns of the lower CPUs have left. And then the order has
    every CPU of the node.
   */
  lemma TurnsOpenIff(topo: Topology, node: CpuSet)
    ensures (forall x: nat :: OpensItself(topo, node, x)) <==> (forall x: nat :: Unshaded(topo, node, x))
    ensures (forall x: nat :: Unshaded(topo, node, x)) ==> Reached(topo, node) == node
  {
    if (forall x: nat :: OpensItself(topo, node, x)) || (forall x: nat :: Unshaded(topo, node, x)) {
      var e := Above(node);
      EachTurn(topo, node, e);
      UntilEnd(topo, node, e);
      UntilWalked(topo, node, e);
    }
  }

  /** Every part of a node is listed whole exactly when no CPU of the node shadows another. */
  lemma PartsCompleteIff(topo: Topology, node: CpuSet)
    ensures (forall part: CpuSet :: part <= node ==> Reached(topo, part) == part) <==> Unshadowed(topo, node)
  {
    if Unshadowed(topo, node) {
      forall part: CpuSet | part <= node ensures Reached(topo, part) == part {
        OrderIsDistinct(topo, part);
      }
    } else {
      var x, y :| x in node && y in node && Shadowed(topo, x, y);
      ShadowedIsLost(topo, x, y);
      assert {x, y} <= node && x !in Reached(topo, {x, y});
    }
  }

  // ----- why a loss is not decided below -----

  lemma AscOfThree(x: nat, y: nat, z: nat, node: CpuSet)
    requires x < y < z && node == {x, y, z}
    ensures Asc(node) == [x, y, z]
  {
    var a: CpuSet, b: CpuSet, c: CpuSet := {}, {x}, {x, y};
    assert a + {x} == b && b + {y} == c && c + {z} == node;
    AscAdds(a, x, b, []);
    AscAdds(b, y, c, [x]);
    AscAdds(c, z, node, [x, y]);
  }

  lemma AscAdds(s: CpuSet, x: nat, t: CpuSet, asc: seq<nat>)
    requires t == s + {x} && Asc(s) == asc && forall y :: y in s ==> y < x
    ensures Asc(t) == asc + [x]
  {
    AscSnoc(s, x);
  }

  lemma PlaceAtom(topo: Topology, cluster: CpuSet, c: nat, rest: seq<nat>, w: Walk, atom: CpuSet)
    requires c !in w.visited && Mask(topo.sibling, c) * cluster - w.visited == atom != {}
    ensures WalkCluster(topo, cluster, [c] + rest, w) == WalkCluster(topo, cluster, rest, Walk(w.order + Asc(atom), w.visited + atom))
  {
    assert ([c] + rest)[1..] == rest;
  }

  lemma {:induction false} SkipPlaced(topo: Topology, node: CpuSet, cs: seq<nat>, w: Walk)
    requires forall i :: 0 <= i < |cs| ==> Turn(topo, node, w, cs[i]) == w
    ensures WalkNode(topo, node, cs, w) == w
    decreases |cs|
  {
    if cs != [] {
      assert forall i :: 0 <= i < |cs[1..]| ==> cs[1..][i] == cs[i + 1];
      SkipPlaced(topo, node, cs[1..], w);
      assert cs == [cs[0]] + cs[1..];
      WalkAppend(topo, node, [cs[0]], cs[1..], w);
      OneTurn(topo, node, w, cs[0]);
    }
  }

  lemma ThreeTurns(topo: Topology, node: CpuSet, x: nat, y: nat, z: nat, w: Walk)
    ensures WalkNode(topo, node, [x, y, z], w) == Turn(topo, node, Turn(topo, node, Turn(topo, node, w, x), y), z)
  {
    var w1 := Turn(topo, node, w, x);
    var w2 := Turn(topo, node, w1, y);
    assert [x, y, z] == [x] + [y, z] && [y, z] == [y] + [z];
    WalkAppend(topo, node, [x], [y, z], w);
    WalkAppend(topo, node, [y], [z], w1);
    OneTurn(topo, node, w, x);
    OneTurn(topo, node, w1, y);
    OneTurn(topo, node, w2, z);
  }

  /** A turn that finds no other CPU left in its mask places just its own. */
  lemma SoloTurn(topo: Topology, node: CpuSet, w: Walk, c: nat)
    requires c !in w.visited && ClusterOf(topo, c) * node - w.visited == {c} && Mask(topo.sibling, c) * {c} == {c}
    ensures Turn(topo, node, w, c) == Walk(w.order + [c], w.visited + {c})
  {
    assert Cluster(topo, node, w.visited, c) == {c} == Atom(topo, {c}, w.visited, c);
    AscIs({c}, c);
    assert {c} - {c} == {} && Asc({c}) == [c];
    PlaceAtom(topo, {c}, c, [], w, {c});
    assert [c] + [] == [c];
  }

  /** Three CPUs of one cluster; `x` names only `z` as a sibling, `y` names `one`. */
  ghost predicate Trio(topo: Topology, node: CpuSet, x: nat, y: nat, z: nat, one: CpuSet) {
    && x < y < z && node == {x, y, z} && y in one && one <= {x, y} && ClusterOf(topo, x) * node == node
    && Mask(topo.sibling, x) * node == {z} && Mask(topo.sibling, y) * node == one
  }

  lemma TrioCluster(topo: Topology, node: CpuSet, x: nat, y: nat, z: nat, one: CpuSet, w: Walk)
    requires Trio(topo, node, x, y, z, one) && w == Walk([], {})
    ensures WalkCluster(topo, node, [x, y, z], w).visited == {z} + one
  {
    var w1 := Walk(w.order + Asc({z}), w.visited + {z});
    var w2 := Walk(w1.order + Asc(one), w1.visited + one);
    assert [x, y, z] == [x] + [y, z] && [y, z] == [y] + [z];
    PlaceAtom(topo, node, x, [y, z], w, {z});
    PlaceAtom(topo, node, y, [z], w1, one);
    assert [z][1..] == [];
  }

  /** A node that is one cluster, and whose first turn places the rest of it, is walked in that turn. */
  lemma FirstTurnIsAll(topo: Topology, node: CpuSet, c: nat, rest: seq<nat>)
    requires Asc(node) == [c] + rest && ClusterOf(topo, c) * node == node
    requires forall i :: 0 <= i < |rest| ==> rest[i] in WalkCluster(topo, node, Asc(node), Walk([], {})).visited
    ensures Reached(topo, node) == WalkCluster(topo, node, Asc(node), Walk([], {})).visited
  {
    var w := Walk([], {});
    var z := Turn(topo, node, w, c);
    assert c in Elems(Asc(node));
    assert Cluster(topo, node, {}, c) == node;
    WalkAppend(topo, node, [c], rest, w);
    OneTurn(topo, node, w, c);
    SkipPlaced(topo, node, rest, z);
  }

  lemma TrioReached(topo: Topology, node: CpuSet, x: nat, y: nat, z: nat, one: CpuSet)
    requires Trio(topo, node, x, y, z, one)
    ensures Reached(topo, node) == {z} + one
  {
    AscOfThree(x, y, z, node);
    TrioCluster(topo, node, x, y, z, one, Walk([], {}));
    assert [x, y, z] == [x] + [y, z];
    FirstTurnIsAll(topo, node, x, [y, z]);
  }

  /** Whether `x` is lost hangs on the mask of the higher `y`: it is passed over in its turn either way. */
  lemma LossIsNotDecidedBelow(t: Topology, u: Topology, node: CpuSet, x: nat, y: nat, z: nat)
    requires Trio(t, node, x, y, z, {y}) && Trio(u, node, x, y, z, {x, y})
    ensures x !in Reached(t, node) && Reached(u, node) == node
  {
    TrioReached(t, node, x, y, z, {y});
    TrioReached(u, node, x, y, z, {x, y});
  }
}
