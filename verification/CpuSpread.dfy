/**
  Spreading CPUs over pinning groups: seats are apportioned to NUMA nodes by
  largest remainder, each node is packed evenly in locality order, and with
  fewer groups than nodes whole nodes go heaviest-first to the lightest group.
 */
module CpuSpread {
  import opened Common

  type CpuSet = set<nat>

  datatype Topology = Topology(possible: CpuSet, present: CpuSet, nodes: seq<CpuSet>, sibling: seq<CpuSet>, cluster: seq<CpuSet>)

  // ----- groups -----

  ghost predicate Disjoint(groups: seq<CpuSet>) {
    forall i, j :: 0 <= i < j < |groups| ==> groups[i] !! groups[j]
  }

  ghost function Union(groups: seq<CpuSet>): CpuSet {
    if groups == [] then {} else groups[0] + Union(groups[1..])
  }

  lemma {:induction false} InUnion(groups: seq<CpuSet>, c: nat)
    ensures c in Union(groups) <==> exists g :: 0 <= g < |groups| && c in groups[g]
  {
    if groups != [] {
      InUnion(groups[1..], c);
      if c in Union(groups[1..]) {
        var g :| 0 <= g < |groups[1..]| && c in groups[1..][g];
        assert c in groups[g + 1];
      }
      if g :| 0 <= g < |groups| && c in groups[g] {
        if g > 0 {
          assert c in groups[1..][g - 1];
        }
      }
    }
  }

  lemma {:induction false} UnionGrows(groups: seq<CpuSet>, g: nat, more: CpuSet)
    requires g < |groups|
    ensures Union(groups[g := groups[g] + more]) == Union(groups) + more
  {
    var z := groups[g := groups[g] + more];
    if g == 0 {
      assert z[1..] == groups[1..];
    } else {
      assert z[1..] == groups[1..][g - 1 := groups[1..][g - 1] + more];
      UnionGrows(groups[1..], g - 1, more);
    }
  }

  lemma {:induction false} UnionAppend(a: seq<CpuSet>, b: seq<CpuSet>)
    ensures Union(a + b) == Union(a) + Union(b)
  {
    if a == [] {
      assert a + b == b;
    } else {
      assert (a + b)[1..] == a[1..] + b;
      UnionAppend(a[1..], b);
    }
  }

  lemma MemberOfUnion(groups: seq<CpuSet>, g: nat)
    requires g < |groups|
    ensures groups[g] <= Union(groups)
  {
    forall c | c in groups[g] ensures c in Union(groups) {
      InUnion(groups, c);
    }
  }

  lemma EmptyUnion(n: nat)
    ensures Union(seq<CpuSet>(n, _ => {})) == {}
  {
    var s := seq<CpuSet>(n, _ => {});
    forall c ensures c !in Union(s) {
      InUnion(s, c);
    }
  }

  /** A new CPU goes to one group; the groups stay disjoint. */
  lemma PlaceCpu(groups: seq<CpuSet>, g: nat, cpu: nat)
    requires Disjoint(groups) && g < |groups| && cpu !in Union(groups)
    ensures Disjoint(groups[g := groups[g] + {cpu}])
    ensures Union(groups[g := groups[g] + {cpu}]) == Union(groups) + {cpu}
  {
    UnionGrows(groups, g, {cpu});
    forall i | 0 <= i < |groups| ensures cpu !in groups[i] {
      InUnion(groups, cpu);
    }
  }

  // ----- even quotas -----

  /** Part `i` of `n` split into `k` near-even parts, the remainder going to the leading ones. */
  function Part(n: nat, k: nat, i: nat): nat
    requires k > 0
  {
    n / k + if i < n % k then 1 else 0
  }

  function SplitEven(n: nat, k: nat): seq<nat>
    requires k > 0
  {
    seq<nat>(k, i requires 0 <= i => Part(n, k, i))
  }

  /** The first `j` parts, added up. */
  lemma {:induction false} PartsSum(s: seq<nat>, q: nat, r: nat)
    requires forall i :: 0 <= i < |s| ==> s[i] == q + if i < r then 1 else 0
    ensures Sum(s) == |s| * q + Min(|s|, r)
    decreases |s|
  {
    if s != [] {
      var t := s[1..];
      var r1 := if r > 0 then r - 1 else 0;
      forall i | 0 <= i < |t| ensures t[i] == q + if i < r1 then 1 else 0 {
        assert s[i + 1] == q + if i + 1 < r then 1 else 0;
      }
      PartsSum(t, q, r1);
      assert |s| * q == |t| * q + q;
    }
  }

  /** The parts add up to the whole and differ by at most one. */
  lemma SplitIsEven(n: nat, k: nat)
    requires k > 0
    ensures Sum(SplitEven(n, k)) == n
    ensures forall i, j :: 0 <= i < k && 0 <= j < k ==> SplitEven(n, k)[i] <= SplitEven(n, k)[j] + 1
  {
    PartsSum(SplitEven(n, k), n / k, n % k);
    assert k * (n / k) + n % k == n;
  }

  /** A smaller number's parts are no larger, part by part. */
  lemma SplitMonotone(m: nat, n: nat, k: nat, i: nat)
    requires k > 0 && m <= n && i < k
    ensures Part(m, k, i) <= Part(n, k, i)
  {
    var a, b := m / k, n / k;
    DivMod(m, k);
    DivMod(n, k);
    if a > b {
      Grows(k, b, a);
    } else if a < b {
      Grows(k, a, b);
    }
  }

  // ----- ordering by key -----

  /** `i` comes before `j`: larger key first, ties to the lower index. */
  predicate Before(key: seq<nat>, i: nat, j: nat)
    requires i < |key| && j < |key|
  {
    key[i] > key[j] || (key[i] == key[j] && i < j)
  }

  /** All indices, each once, in order. */
  ghost predicate Ordered(key: seq<nat>, order: seq<nat>) {
    && |order| == |key| && (forall i :: 0 <= i < |order| ==> order[i] < |key|)
    && (forall i, j :: 0 <= i < j < |order| ==> Before(key, order[i], order[j]))
    && (forall x: nat :: x < |key| ==> x in order)
  }

  /** `sort_by_key`, by inserting each index behind those that come before it. */
  method SortByKey(key: seq<nat>) returns (order: seq<nat>)
    ensures Ordered(key, order)
  {
    order := [];
    for n := 0 to |key|
      invariant |order| == n && (forall i :: 0 <= i < n ==> order[i] < n)
      invariant forall i, j :: 0 <= i < j < n ==> Before(key, order[i], order[j])
      invariant forall x: nat :: x < n ==> x in order
    {
      var p := 0;
      while p < |order| && Before(key, order[p], n)
        invariant 0 <= p <= |order|
        invariant forall i :: 0 <= i < p ==> Before(key, order[i], n)
        decreases |order| - p
      {
        p := p + 1;
      }
      Inserted(key, order, p, n);
      order := order[..p] + [n] + order[p..];
    }
  }

  lemma Inserted(key: seq<nat>, order: seq<nat>, p: nat, n: nat)
    requires n < |key| && |order| == n && p <= n && (forall i :: 0 <= i < n ==> order[i] < n)
    requires forall i, j :: 0 <= i < j < n ==> Before(key, order[i], order[j])
    requires forall x: nat :: x < n ==> x in order
    requires (forall i :: 0 <= i < p ==> Before(key, order[i], n)) && (p < n ==> !Before(key, order[p], n))
    ensures var z := order[..p] + [n] + order[p..];
            && |z| == n + 1 && (forall i :: 0 <= i <= n ==> z[i] <= n)
            && (forall i, j :: 0 <= i < j <= n ==> Before(key, z[i], z[j]))
            && (forall x: nat :: x <= n ==> x in z)
  {
    var z := order[..p] + [n] + order[p..];
    forall i, j | 0 <= i < j <= n ensures Before(key, z[i], z[j]) {
      if i == p && p < n {
        assert z[j] == order[j - 1];
        assert Before(key, n, order[p]);
      }
    }
    forall x: nat | x <= n ensures x in z {
      if x < n {
        assert x in order;
        var i :| 0 <= i < n && order[i] == x;
        assert z[if i < p then i else i + 1] == x;
      } else {
        assert z[p] == n;
      }
    }
  }

  // ----- apportionment -----

  function Share(spare: nat, w: nat, total: nat): nat
    requires total > 0
  {
    spare * w / total
  }

  function Remainder(spare: nat, w: nat, total: nat): nat
    requires total > 0
  {
    spare * w % total
  }

  function Shares(spare: nat, weights: seq<nat>, total: nat): seq<nat>
    requires total > 0
  {
    seq<nat>(|weights|, i requires 0 <= i < |weights| => Share(spare, weights[i], total))
  }

  function Rests(spare: nat, weights: seq<nat>, total: nat): seq<nat>
    requires total > 0
  {
    seq<nat>(|weights|, i requires 0 <= i < |weights| => Remainder(spare, weights[i], total))
  }

  /** Whole shares and remainders account for every spare seat. */
  lemma {:induction false} SharesAndRests(spare: nat, weights: seq<nat>, total: nat)
    requires total > 0
    ensures total * Sum(Shares(spare, weights, total)) + Sum(Rests(spare, weights, total)) == spare * Sum(weights)
    ensures weights != [] ==> Sum(Rests(spare, weights, total)) < |weights| * total
  {
    if weights != [] {
      var w, rest := weights[0], weights[1..];
      assert Shares(spare, weights, total)[1..] == Shares(spare, rest, total);
      assert Rests(spare, weights, total)[1..] == Rests(spare, rest, total);
      SharesAndRests(spare, rest, total);
      DivMod(spare * w, total);
      Accumulate(total, Share(spare, w, total), Remainder(spare, w, total), spare, w,
                 Sum(Shares(spare, rest, total)), Sum(Rests(spare, rest, total)), Sum(rest), |rest|);
    }
  }

  lemma DivMod(a: nat, t: nat)
    requires t > 0
    ensures t * (a / t) + a % t == a && a % t < t
  {
  }

  lemma Accumulate(t: nat, s1: nat, r1: nat, x: nat, w1: nat, s2: nat, r2: nat, w2: nat, k: nat)
    requires t * s1 + r1 == x * w1 && t * s2 + r2 == x * w2 && r1 < t && (k > 0 ==> r2 < k * t) && (k == 0 ==> r2 == 0)
    ensures t * (s1 + s2) + (r1 + r2) == x * (w1 + w2) && r1 + r2 < (k + 1) * t
  {
    assert t * (s1 + s2) == t * s1 + t * s2;
    assert x * (w1 + w2) == x * w1 + x * w2;
    assert (k + 1) * t == k * t + t;
  }

  /** After the whole shares, fewer seats are left than there are nodes. */
  lemma LeftOver(spare: nat, weights: seq<nat>)
    requires weights != [] && Sum(weights) > 0
    ensures Sum(Shares(spare, weights, Sum(weights))) <= spare < Sum(Shares(spare, weights, Sum(weights))) + |weights|
  {
    var total := Sum(weights);
    SharesAndRests(spare, weights, total);
    Between(total, Sum(Shares(spare, weights, total)), spare, Sum(Rests(spare, weights, total)), |weights|);
  }

  lemma Between(t: nat, s: nat, x: nat, r: nat, k: nat)
    requires t > 0 && t * s + r == x * t && r < k * t
    ensures s <= x < s + k
  {
    assert t * (s + k) == t * s + k * t;
    if x < s {
      Grows(t, x, s);
    } else if x >= s + k {
      Grows(t, s + k, x);
    }
  }

  lemma {:induction false} Grows(t: nat, a: nat, b: nat)
    requires a <= b
    ensures t * a <= t * b && (a < b ==> t * a + t <= t * b)
    decreases b
  {
    if a < b {
      Grows(t, a, b - 1);
      var c := b - 1;
      assert t * (c + 1) == t * c + t;
    }
  }

  lemma {:induction false} OnePlusSum(shares: seq<nat>, out: seq<nat>)
    requires |out| == |shares| && forall i :: 0 <= i < |out| ==> out[i] == 1 + shares[i]
    ensures Sum(out) == |shares| + Sum(shares)
  {
    if out != [] {
      assert out[0] == 1 + shares[0];
      forall i | 0 <= i < |out[1..]| ensures out[1..][i] == 1 + shares[1..][i] {
        assert out[i + 1] == 1 + shares[i + 1];
      }
      OnePlusSum(shares[1..], out[1..]);
    }
  }

  /** All seats are given out: to each its floor, and one each to the largest remainders. */
  ghost predicate Apportioned(seats: nat, weights: seq<nat>, out: seq<nat>) {
    && weights != [] && |weights| <= seats && Sum(weights) > 0 && |out| == |weights| && Sum(out) == seats
    && var spare, total := seats - |weights|, Sum(weights);
       && (forall i :: 0 <= i < |out| ==> 1 + Share(spare, weights[i], total) <= out[i] <= 2 + Share(spare, weights[i], total))
       && var rests := Rests(spare, weights, total);
          forall i, j :: 0 <= i < |out| && 0 <= j < |out|
            && out[i] == 2 + Share(spare, weights[i], total) && out[j] == 1 + Share(spare, weights[j], total)
            ==> Before(rests, i, j)
  }

  /**
    `apportion`: the seats are all given out, every node gets its floor, and the
    seats left over go one each to the largest remainders.
   */
  method Apportion(seats: nat, weights: seq<nat>) returns (out: seq<nat>)
    requires weights != [] && |weights| <= seats && Sum(weights) > 0
    ensures Apportioned(seats, weights, out)
  {
    var spare := seats - |weights|;
    var total := Sum(weights);
    var base := seq<nat>(|weights|, i requires 0 <= i < |weights| => 1 + Share(spare, weights[i], total));
    OnePlusSum(Shares(spare, weights, total), base);
    LeftOver(spare, weights);
    var rests := Rests(spare, weights, total);
    var order := SortByKey(rests);
    var extra := seats - Sum(base);
    out := base;
    for k := 0 to extra
      invariant |out| == |weights| && Sum(out) == Sum(base) + k
      invariant forall i :: 0 <= i < |out| ==> out[i] == base[i] + if i in order[..k] then 1 else 0
    {
      var i := order[k];
      assert i !in order[..k];
      SumUpdate(out, i, out[i] + 1);
      out := out[i := out[i] + 1];
      assert order[..k + 1] == order[..k] + [i];
    }
    forall i, j | 0 <= i < |out| && 0 <= j < |out| && out[i] == base[i] + 1 && out[j] == base[j]
      ensures Before(rests, i, j)
    {
      var a :| 0 <= a < extra && order[a] == i;
      assert j in order;
      var b :| 0 <= b < |order| && order[b] == j;
    }
  }

  // ----- fewer groups than nodes -----

  /** The weight of the nodes inside `g`. */
  ghost function Load(nodes: seq<CpuSet>, weights: seq<nat>, owner: seq<int>, g: nat): nat
    requires |nodes| == |weights| == |owner|
  {
    if nodes == [] then 0
    else (if owner[0] == g then weights[0] else 0) + Load(nodes[1..], weights[1..], owner[1..], g)
  }

  lemma {:induction false} LoadUpdate(nodes: seq<CpuSet>, weights: seq<nat>, owner: seq<int>, i: nat, h: nat, g: nat)
    requires |nodes| == |weights| == |owner| && i < |owner| && owner[i] == -1
    ensures Load(nodes, weights, owner[i := h], g) == Load(nodes, weights, owner, g) + if g == h then weights[i] else 0
  {
    if i == 0 {
      assert owner[i := h][1..] == owner[1..];
    } else {
      assert owner[i := h][1..] == owner[1..][i - 1 := h];
      LoadUpdate(nodes[1..], weights[1..], owner[1..], i - 1, h, g);
    }
  }

  lemma {:induction false} NoLoad(nodes: seq<CpuSet>, weights: seq<nat>, owner: seq<int>, g: nat)
    requires |nodes| == |weights| == |owner| && forall i :: 0 <= i < |owner| ==> owner[i] == -1
    ensures Load(nodes, weights, owner, g) == 0
  {
    if nodes != [] {
      NoLoad(nodes[1..], weights[1..], owner[1..], g);
    }
  }

  /** The lightest group, ties to the lowest index. */
  method Lightest(loads: seq<nat>) returns (g: nat)
    requires loads != []
    ensures g < |loads| && (forall h :: 0 <= h < |loads| ==> loads[g] <= loads[h])
  {
    g := 0;
    for h := 1 to |loads|
      invariant g < |loads| && (forall k :: 0 <= k < h ==> loads[g] <= loads[k])
    {
      if loads[h] < loads[g] {
        g := h;
      }
    }
  }

  /** Every node is inside the one group that owns it, and the groups hold nothing else. */
  ghost predicate Whole(nodes: seq<CpuSet>, owner: seq<int>, groups: seq<CpuSet>)
    requires |owner| == |nodes|
  {
    && (forall i :: 0 <= i < |owner| && owner[i] >= 0 ==> owner[i] < |groups| && nodes[i] <= groups[owner[i]])
    && (forall g, c :: 0 <= g < |groups| && c in groups[g] ==> exists i :: 0 <= i < |nodes| && owner[i] == g && c in nodes[i])
  }

  lemma WholeMore(nodes: seq<CpuSet>, owner: seq<int>, groups: seq<CpuSet>, i: nat, g: nat)
    requires |owner| == |nodes| && Whole(nodes, owner, groups) && i < |nodes| && g < |groups| && owner[i] == -1
    ensures Whole(nodes, owner[i := g], groups[g := groups[g] + nodes[i]])
  {
    var o, z := owner[i := g], groups[g := groups[g] + nodes[i]];
    forall h, c | 0 <= h < |z| && c in z[h] ensures exists k :: 0 <= k < |nodes| && o[k] == h && c in nodes[k] {
      if h == g && c in nodes[i] {
        assert o[i] == h;
      } else {
        var k :| 0 <= k < |nodes| && owner[k] == h && c in nodes[k];
        assert o[k] == h;
      }
    }
  }

  function Heaviest(weights: seq<nat>): nat {
    if weights == [] then 0
    else
      var rest := Heaviest(weights[1..]);
      if weights[0] > rest then weights[0] else rest
  }

  lemma {:induction false} AtMostHeaviest(weights: seq<nat>, i: nat)
    requires i < |weights|
    ensures weights[i] <= Heaviest(weights)
  {
    if i > 0 {
      AtMostHeaviest(weights[1..], i - 1);
    }
  }

  /** Nodes `placed` so far are whole inside their owners, and the loads are even to within one node. */
  ghost predicate Packed(nodes: seq<CpuSet>, weights: seq<nat>, groups: seq<CpuSet>, loads: seq<nat>, owner: seq<int>)
    requires |weights| == |nodes|
  {
    && |loads| == |groups| && |owner| == |nodes| && Whole(nodes, owner, groups)
    && (forall g :: 0 <= g < |groups| ==> loads[g] == Load(nodes, weights, owner, g))
    && (forall g, h :: 0 <= g < |groups| && 0 <= h < |groups| ==> loads[g] <= loads[h] + Heaviest(weights))
  }

  lemma PackMore(nodes: seq<CpuSet>, weights: seq<nat>, groups: seq<CpuSet>, loads: seq<nat>, owner: seq<int>, i: nat, g: nat)
    requires |weights| == |nodes| && Packed(nodes, weights, groups, loads, owner) && i < |nodes| && owner[i] == -1
    requires g < |groups| && forall h :: 0 <= h < |loads| ==> loads[g] <= loads[h]
    ensures Packed(nodes, weights, groups[g := groups[g] + nodes[i]], loads[g := loads[g] + weights[i]], owner[i := g])
  {
    WholeMore(nodes, owner, groups, i, g);
    AtMostHeaviest(weights, i);
    forall h | 0 <= h < |groups|
      ensures Load(nodes, weights, owner[i := g], h) == Load(nodes, weights, owner, h) + if h == g then weights[i] else 0
    {
      LoadUpdate(nodes, weights, owner, i, g, h);
    }
  }

  lemma NothingPacked(nodes: seq<CpuSet>, weights: seq<nat>, groups: seq<CpuSet>, loads: seq<nat>, owner: seq<int>)
    requires |weights| == |nodes| == |owner| && |loads| == |groups|
    requires forall g :: 0 <= g < |groups| ==> groups[g] == {} && loads[g] == 0
    requires forall i :: 0 <= i < |owner| ==> owner[i] == -1
    ensures Packed(nodes, weights, groups, loads, owner)
  {
    forall g | 0 <= g < |groups| ensures Load(nodes, weights, owner, g) == 0 {
      NoLoad(nodes, weights, owner, g);
    }
  }

  /** Without any one of its nodes, a group would be no heavier than any other. */
  ghost predicate Balanced(weights: seq<nat>, owner: seq<int>, loads: seq<nat>)
    requires |owner| == |weights|
  {
    forall i, h :: 0 <= i < |owner| && 0 <= h < |loads| && 0 <= owner[i] < |loads| ==> loads[owner[i]] <= loads[h] + weights[i]
  }

  /** Heaviest first: the node placed next is no heavier than those placed. */
  lemma NextIsLighter(weights: seq<nat>, order: seq<nat>, owner: seq<int>, ngroups: nat, k: nat, i: nat)
    requires Ordered(weights, order) && |owner| == |weights| && OwnedUpTo(order, owner, ngroups, k) && k < |order|
    requires i < |owner| && owner[i] >= 0
    ensures weights[order[k]] <= weights[i]
  {
    assert i in order;
    var j :| 0 <= j < |order| && order[j] == i;
    assert j < k;
    assert Before(weights, order[j], order[k]);
  }

  lemma BalanceMore(weights: seq<nat>, owner: seq<int>, loads: seq<nat>, n: nat, g: nat)
    requires |owner| == |weights| && Balanced(weights, owner, loads) && n < |weights| && g < |loads| && owner[n] == -1
    requires forall h :: 0 <= h < |loads| ==> loads[g] <= loads[h]
    requires forall i :: 0 <= i < |owner| && owner[i] >= 0 ==> weights[n] <= weights[i]
    ensures Balanced(weights, owner[n := g], loads[g := loads[g] + weights[n]])
  {
    var o, z := owner[n := g], loads[g := loads[g] + weights[n]];
    forall i, h | 0 <= i < |o| && 0 <= h < |z| && 0 <= o[i] < |z| ensures z[o[i]] <= z[h] + weights[i] {
      assert weights[n] <= weights[i];
      assert loads[g] <= loads[h];
      assert i != n ==> loads[owner[i]] <= loads[h] + weights[i];
    }
  }

  /**
    `pack_whole_nodes`: nodes stay whole, no group is heavier than another by
    more than the heaviest node, nor by more than the lightest of its own.
   */
  method PackWholeNodes(ngroups: nat, nodes: seq<CpuSet>, weights: seq<nat>)
    returns (groups: seq<CpuSet>, loads: seq<nat>, ghost owner: seq<int>)
    requires ngroups > 0 && |weights| == |nodes|
    ensures |groups| == ngroups && Packed(nodes, weights, groups, loads, owner) && Balanced(weights, owner, loads)
    ensures forall i :: 0 <= i < |nodes| ==> 0 <= owner[i] < ngroups
  {
    var order := SortByKey(weights);
    groups := seq<CpuSet>(ngroups, _ => {});
    loads := seq<nat>(ngroups, _ => 0);
    owner := seq(|nodes|, _ => -1);
    NothingPacked(nodes, weights, groups, loads, owner);
    for k := 0 to |order|
      invariant |groups| == ngroups && Packed(nodes, weights, groups, loads, owner) && Balanced(weights, owner, loads)
      invariant OwnedUpTo(order, owner, ngroups, k)
    {
      var g := Lightest(loads);
      PackMore(nodes, weights, groups, loads, owner, order[k], g);
      OwnedMore(weights, order, owner, ngroups, k, g);
      forall i | 0 <= i < |owner| && owner[i] >= 0 ensures weights[order[k]] <= weights[i] {
        NextIsLighter(weights, order, owner, ngroups, k, i);
      }
      BalanceMore(weights, owner, loads, order[k], g);
      groups := groups[g := groups[g] + nodes[order[k]]];
      loads := loads[g := loads[g] + weights[order[k]]];
      owner := owner[order[k] := g];
    }
    AllOwned(weights, order, owner, ngroups);
  }

  /** The first `k` nodes of the order have a group, the others not yet. */
  ghost predicate OwnedUpTo(order: seq<nat>, owner: seq<int>, ngroups: nat, k: nat) {
    forall j :: 0 <= j < |order| ==>
      && order[j] < |owner|
      && if j < k then 0 <= owner[order[j]] < ngroups else owner[order[j]] == -1
  }

  lemma OwnedMore(weights: seq<nat>, order: seq<nat>, owner: seq<int>, ngroups: nat, k: nat, g: nat)
    requires Ordered(weights, order) && OwnedUpTo(order, owner, ngroups, k) && k < |order| && g < ngroups
    ensures OwnedUpTo(order, owner[order[k] := g], ngroups, k + 1)
  {
    forall j | 0 <= j < |order| && j != k ensures order[j] != order[k] {
      assert Before(weights, order[if j < k then j else k], order[if j < k then k else j]);
    }
  }

  lemma AllOwned(weights: seq<nat>, order: seq<nat>, owner: seq<int>, ngroups: nat)
    requires Ordered(weights, order) && |order| == |owner| == |weights| && OwnedUpTo(order, owner, ngroups, |order|)
    ensures forall i :: 0 <= i < |owner| ==> 0 <= owner[i] < ngroups
  {
    forall i | 0 <= i < |owner| ensures 0 <= owner[i] < ngroups {
      assert i in order;
      var j :| 0 <= j < |order| && order[j] == i;
    }
  }

  /** Disjoint nodes, whole in their groups: the groups are disjoint and cover them. */
  lemma WholeCovers(nodes: seq<CpuSet>, owner: seq<int>, groups: seq<CpuSet>)
    requires |owner| == |nodes| && Whole(nodes, owner, groups) && Disjoint(nodes)
    requires forall i :: 0 <= i < |nodes| ==> 0 <= owner[i] < |groups|
    ensures Disjoint(groups) && Union(groups) == Union(nodes)
  {
    forall g, h | 0 <= g < h < |groups| ensures groups[g] !! groups[h] {
    }
    forall c ensures c in Union(groups) <==> c in Union(nodes) {
      InUnion(groups, c);
      InUnion(nodes, c);
      if c in Union(nodes) {
        var i :| 0 <= i < |nodes| && c in nodes[i];
        assert c in groups[owner[i]];
      }
    }
  }

  // ----- locality order -----

  ghost predicate Distinct(s: seq<nat>) {
    forall i, j :: 0 <= i < j < |s| ==> s[i] != s[j]
  }

  function Elems(s: seq<nat>): CpuSet {
    set x | x in s
  }

  lemma {:induction false} ElemsSize(s: seq<nat>)
    requires Distinct(s)
    ensures |Elems(s)| == |s|
  {
    if s != [] {
      ElemsSize(s[1..]);
      assert Elems(s) == {s[0]} + Elems(s[1..]);
    }
  }

  ghost predicate IsLeast(s: CpuSet, m: nat) {
    m in s && forall x :: x in s ==> m <= x
  }

  lemma LeastExists(s: CpuSet) returns (m: nat)
    requires s != {}
    ensures IsLeast(s, m)
  {
    var k :| k in s;
    m := k;
    if s != {k} {
      var n := LeastExists(s - {k});
      if n < k {
        m := n;
      }
      forall x | x in s ensures m <= x {
        assert x == k || x in s - {k};
      }
    }
  }

  lemma ElemsCons(m: nat, r: seq<nat>)
    ensures Elems([m] + r) == {m} + Elems(r)
  {
  }

  ghost function Least(s: CpuSet): (m: nat)
    requires s != {}
    ensures IsLeast(s, m)
  {
    assert exists m :: IsLeast(s, m) by {
      var m := LeastExists(s);
    }
    var m :| IsLeast(s, m);
    m
  }

  /** The CPUs of a set in ascending order. */
  ghost function Asc(s: CpuSet): (r: seq<nat>)
    ensures Distinct(r) && Elems(r) == s
  {
    if s == {} then []
    else
      var m := Least(s);
      var r := Asc(s - {m});
      assert forall i :: 0 <= i < |r| ==> r[i] in Elems(r);
      ElemsCons(m, r);
      assert s == {m} + (s - {m});
      [m] + r
  }

  method FindLeast(s: CpuSet) returns (m: nat)
    requires s != {}
    ensures m == Least(s)
  {
    m :| m in s;
    var rest := s - {m};
    while rest != {}
      invariant m in s && (forall x :: x in s ==> x in rest || m <= x)
      decreases rest
    {
      var x :| x in rest;
      if x < m {
        m := x;
      }
      rest := rest - {x};
    }
  }

  lemma AscSplits(out: seq<nat>, rest: CpuSet)
    requires rest != {}
    ensures out + Asc(rest) == out + [Least(rest)] + Asc(rest - {Least(rest)})
  {
    var m := Least(rest);
    assert out + ([m] + Asc(rest - {m})) == out + [m] + Asc(rest - {m});
  }

  /** A CPU set's iterator. */
  method Iterate(s: CpuSet) returns (out: seq<nat>)
    ensures out == Asc(s)
  {
    out := [];
    var rest := s;
    while rest != {}
      invariant out + Asc(rest) == Asc(s)
      decreases rest
    {
      AscSplits(out, rest);
      var m := FindLeast(rest);
      out := out + [m];
      rest := rest - {m};
    }
    assert out + [] == out;
  }

  function Mask(v: seq<CpuSet>, c: nat): CpuSet {
    if c < |v| then v[c] else {}
  }

  /** A CPU's cluster, or its siblings where there is no cluster data. */
  function ClusterOf(topo: Topology, c: nat): CpuSet {
    if Mask(topo.cluster, c) != {} then Mask(topo.cluster, c) else Mask(topo.sibling, c)
  }

  /** The siblings of `c` still to place in its cluster, or `c` alone. */
  function Atom(topo: Topology, cluster: CpuSet, visited: CpuSet, c: nat): CpuSet {
    var atom := Mask(topo.sibling, c) * cluster - visited;
    if atom == {} then {c} else atom
  }

  /** The part of its cluster `cpu` opens, or `cpu` alone. */
  function Cluster(topo: Topology, node: CpuSet, visited: CpuSet, cpu: nat): CpuSet {
    var cluster := ClusterOf(topo, cpu) * node - visited;
    if cluster == {} then {cpu} else cluster
  }

  datatype Walk = Walk(order: seq<nat>, visited: CpuSet)

  /** Walk a cluster: its sibling sets, each contiguous. */
  ghost function WalkCluster(topo: Topology, cluster: CpuSet, cs: seq<nat>, w: Walk): Walk
    decreases |cs|
  {
    if cs == [] then w
    else if cs[0] in w.visited then WalkCluster(topo, cluster, cs[1..], w)
    else
      var atom := Atom(topo, cluster, w.visited, cs[0]);
      WalkCluster(topo, cluster, cs[1..], Walk(w.order + Asc(atom), w.visited + atom))
  }

  /** Walk a node: cluster by cluster, in the order of their lowest CPUs. */
  ghost function WalkNode(topo: Topology, node: CpuSet, cpus: seq<nat>, w: Walk): Walk
    decreases |cpus|
  {
    if cpus == [] then w
    else if cpus[0] in w.visited then WalkNode(topo, node, cpus[1..], w)
    else
      var cluster := Cluster(topo, node, w.visited, cpus[0]);
      WalkNode(topo, node, cpus[1..], WalkCluster(topo, cluster, Asc(cluster), w))
  }

  method OrderCluster(topo: Topology, cluster: CpuSet, w0: Walk) returns (w: Walk)
    ensures w == WalkCluster(topo, cluster, Asc(cluster), w0)
  {
    w := w0;
    var rest := Iterate(cluster);
    while rest != []
      invariant WalkCluster(topo, cluster, rest, w) == WalkCluster(topo, cluster, Asc(cluster), w0)
      decreases |rest|
    {
      if rest[0] !in w.visited {
        var atom := Atom(topo, cluster, w.visited, rest[0]);
        var members := Iterate(atom);
        w := Walk(w.order + members, w.visited + atom);
      }
      rest := rest[1..];
    }
  }

  /** `fill_order`. */
  method FillOrder(node: CpuSet, topo: Topology) returns (order: seq<nat>)
    ensures order == Order(topo, node)
    ensures Distinct(order) && Elems(order) == Reached(topo, node)
  {
    var w := Walk([], {});
    var rest := Iterate(node);
    while rest != []
      invariant WalkNode(topo, node, rest, w) == WalkNode(topo, node, Asc(node), Walk([], {}))
      decreases |rest|
    {
      if rest[0] !in w.visited {
        var cluster := Cluster(topo, node, w.visited, rest[0]);
        w := OrderCluster(topo, cluster, w);
      }
      rest := rest[1..];
    }
    OrderIsDistinct(topo, node);
    return w.order;
  }

  /** The locality order of a node. */
  ghost function Order(topo: Topology, node: CpuSet): seq<nat> {
    WalkNode(topo, node, Asc(node), Walk([], {})).order
  }

  /** The CPUs of `node` that its locality order has. */
  ghost function Reached(topo: Topology, node: CpuSet): CpuSet {
    WalkNode(topo, node, Asc(node), Walk([], {})).visited
  }

  /** The CPUs walked so far, each once, all of the node. */
  ghost predicate Walked(node: CpuSet, w: Walk) {
    Distinct(w.order) && Elems(w.order) == w.visited && w.visited <= node
  }

  lemma WalkMore(node: CpuSet, w: Walk, atom: CpuSet)
    requires Walked(node, w) && atom !! w.visited && atom <= node
    ensures Walked(node, Walk(w.order + Asc(atom), w.visited + atom))
  {
    var more := Asc(atom);
    assert forall i :: 0 <= i < |w.order| ==> w.order[i] in Elems(w.order);
    assert forall i :: 0 <= i < |more| ==> more[i] in Elems(more);
    forall x ensures x in Elems(w.order + more) <==> x in w.visited + atom {
      assert x in Elems(w.order) <==> x in w.order;
      assert x in Elems(more) <==> x in more;
    }
  }

  lemma {:induction false} ClusterWalked(topo: Topology, node: CpuSet, cluster: CpuSet, cs: seq<nat>, w: Walk)
    requires Walked(node, w) && cluster <= node && (forall i :: 0 <= i < |cs| ==> cs[i] in cluster)
    ensures var z := WalkCluster(topo, cluster, cs, w); Walked(node, z) && w.visited <= z.visited
    decreases |cs|
  {
    if cs != [] {
      var w1 := w;
      if cs[0] !in w.visited {
        var atom := Atom(topo, cluster, w.visited, cs[0]);
        WalkMore(node, w, atom);
        w1 := Walk(w.order + Asc(atom), w.visited + atom);
      }
      ClusterWalked(topo, node, cluster, cs[1..], w1);
    }
  }

  /**
    In its own turn `x` is passed over for the later `y`: `x` is missing from
    its own mask, and `y` is in it.
   */
  predicate Shadowed(topo: Topology, x: nat, y: nat) {
    && x < y && y in ClusterOf(topo, x)
    && (x in ClusterOf(topo, x) ==> x !in Mask(topo.sibling, x) && y in Mask(topo.sibling, x))
  }

  ghost predicate Unshadowed(topo: Topology, node: CpuSet) {
    forall x, y :: x in node && y in node ==> !Shadowed(topo, x, y)
  }

  lemma AscIs(s: CpuSet, m: nat)
    requires IsLeast(s, m)
    ensures Asc(s) == [m] + Asc(s - {m}) && Asc(s)[1..] == Asc(s - {m})
  {
    assert Least(s) == m;
  }

  /** A CPU that no later one shadows is part of the cluster it opens, and the first one placed. */
  lemma OpensWithItself(topo: Topology, node: CpuSet, visited: CpuSet, cpu: nat)
    requires cpu in node && cpu !in visited && (forall y :: y in node && y < cpu ==> y in visited)
    requires forall y :: y in node ==> !Shadowed(topo, cpu, y)
    ensures var cluster := Cluster(topo, node, visited, cpu);
            IsLeast(cluster, cpu) && cpu in Atom(topo, cluster, visited, cpu)
  {
    var found := ClusterOf(topo, cpu) * node - visited;
    assert forall z :: z in found ==> cpu in found || Shadowed(topo, cpu, z);
    assert found == {} || cpu in found;
    var cluster := Cluster(topo, node, visited, cpu);
    var sibs := Mask(topo.sibling, cpu) * cluster - visited;
    assert forall z :: z in sibs ==> cpu in sibs || Shadowed(topo, cpu, z);
    assert sibs == {} || cpu in sibs;
  }

  /** So its own turn places it. */
  lemma TurnPlaces(topo: Topology, node: CpuSet, cpu: nat, w: Walk)
    requires Walked(node, w) && cpu in node && cpu !in w.visited && (forall y :: y in node && y < cpu ==> y in w.visited)
    requires forall y :: y in node ==> !Shadowed(topo, cpu, y)
    ensures var cluster := Cluster(topo, node, w.visited, cpu);
            cpu in WalkCluster(topo, cluster, Asc(cluster), w).visited
  {
    var cluster := Cluster(topo, node, w.visited, cpu);
    OpensWithItself(topo, node, w.visited, cpu);
    AscIs(cluster, cpu);
    var cs := Asc(cluster);
    assert forall i :: 0 <= i < |cs| ==> cs[i] in Elems(cs);
    var atom := Atom(topo, cluster, w.visited, cpu);
    WalkMore(node, w, atom);
    ClusterWalked(topo, node, cluster, cs[1..], Walk(w.order + Asc(atom), w.visited + atom));
  }

  /** The walk from `rest` on, everything before it placed. */
  lemma {:induction false} NodeWalked(topo: Topology, node: CpuSet, rest: CpuSet, w: Walk)
    requires Walked(node, w) && rest <= node
    ensures var z := WalkNode(topo, node, Asc(rest), w);
            && Walked(node, z) && w.visited <= z.visited
            && (Unshadowed(topo, node) && node - rest <= w.visited ==> z.visited == node)
    decreases rest
  {
    if rest != {} {
      var cpu := Least(rest);
      AscIs(rest, cpu);
      var w1 := w;
      if cpu !in w.visited {
        var cluster := Cluster(topo, node, w.visited, cpu);
        var cs := Asc(cluster);
        assert forall i :: 0 <= i < |cs| ==> cs[i] in Elems(cs);
        ClusterWalked(topo, node, cluster, cs, w);
        w1 := WalkCluster(topo, cluster, cs, w);
        if Unshadowed(topo, node) && node - rest <= w.visited {
          TurnPlaces(topo, node, cpu, w);
        }
      }
      NodeWalked(topo, node, rest - {cpu}, w1);
    }
  }

  /** The order has no CPU twice and none from elsewhere; without shadowing it has them all. */
  lemma OrderIsDistinct(topo: Topology, node: CpuSet)
    ensures var w := WalkNode(topo, node, Asc(node), Walk([], {}));
            Distinct(w.order) && Elems(w.order) == Reached(topo, node) <= node
    ensures Unshadowed(topo, node) ==> Reached(topo, node) == node
  {
    assert Elems([]) == {};
    NodeWalked(topo, node, node, Walk([], {}));
  }

  /** On a node of just the two, the one shadowed is lost. */
  lemma ShadowedIsLost(topo: Topology, x: nat, y: nat)
    requires Shadowed(topo, x, y)
    ensures Reached(topo, {x, y}) == {y}
  {
    var node: CpuSet := {x, y};
    var one: CpuSet := {y};
    var w, w1 := Walk([], {}), Walk([] + Asc(one), {} + one);
    AscIs(node, x);
    AscIs(one, y);
    assert node - {x} == one && one - {y} == {};
    var cluster := Cluster(topo, node, {}, x);
    if x in ClusterOf(topo, x) {
      assert ClusterOf(topo, x) * node - {} == node;
      assert Atom(topo, node, {}, x) == one by {
        assert Mask(topo.sibling, x) * node - {} == one;
      }
      assert WalkCluster(topo, node, Asc(node), w) == WalkCluster(topo, node, Asc(one), w1) == w1;
    } else {
      assert ClusterOf(topo, x) * node - {} == one;
      assert Atom(topo, one, {}, y) == one;
      assert WalkCluster(topo, one, Asc(one), w) == w1;
    }
    assert WalkNode(topo, node, Asc(node), w) == WalkNode(topo, node, Asc(one), w1) == w1;
  }

  /** `fill_order` has every CPU of every node exactly when the masks let no CPU be shadowed by a later one. */
  lemma OrderCompleteIff(topo: Topology)
    ensures (forall node: CpuSet :: Reached(topo, node) == node) <==> (forall x: nat, y: nat :: !Shadowed(topo, x, y))
  {
    if x: nat, y: nat :| Shadowed(topo, x, y) {
      ShadowedIsLost(topo, x, y);
      assert x !in Reached(topo, {x, y});
    } else {
      forall node: CpuSet ensures Reached(topo, node) == node {
        OrderIsDistinct(topo, node);
      }
    }
  }

  /** Such a topology: CPU 0 is in nobody's mask, not even its own. */
  lemma UnmaskedCpuIsLost(topo: Topology)
    requires topo.cluster == [{1}, {1}] && topo.sibling == []
    ensures 0 !in Reached(topo, {0, 1})
  {
    ShadowedIsLost(topo, 0, 1);
  }

  // ----- packing one node -----

  /** `fill` is the sizes of the groups. */
  ghost predicate Filled(groups: seq<CpuSet>, fill: seq<nat>) {
    |fill| == |groups| && forall j :: 0 <= j < |groups| ==> fill[j] == |groups[j]|
  }

  lemma {:induction false} RoomSomewhere(fill: seq<nat>, quota: seq<nat>)
    requires |fill| == |quota| && Sum(fill) < Sum(quota)
    ensures exists j :: 0 <= j < |fill| && fill[j] < quota[j]
  {
    if fill[0] >= quota[0] {
      RoomSomewhere(fill[1..], quota[1..]);
      var j :| 0 <= j < |fill[1..]| && fill[1..][j] < quota[1..][j];
      assert fill[j + 1] < quota[j + 1];
    }
  }

  lemma {:induction false} AllFull(fill: seq<nat>, quota: seq<nat>)
    requires |fill| == |quota| && Sum(fill) == Sum(quota) && forall j :: 0 <= j < |fill| ==> fill[j] <= quota[j]
    ensures fill == quota
  {
    if fill != [] {
      assert fill[0] <= quota[0];
      forall j | 0 <= j < |fill[1..]| ensures fill[1..][j] <= quota[1..][j] {
        assert fill[j + 1] <= quota[j + 1];
      }
      SumBelow(fill[1..], quota[1..]);
      AllFull(fill[1..], quota[1..]);
      assert fill == [fill[0]] + fill[1..] && quota == [quota[0]] + quota[1..];
    }
  }

  lemma {:induction false} ZeroSum(n: nat)
    ensures Sum(seq<nat>(n, _ => 0)) == 0
  {
    if n > 0 {
      ZeroSum(n - 1);
      assert seq<nat>(n, _ => 0)[1..] == seq<nat>(n - 1, _ => 0);
    }
  }

  /** The CPUs placed so far: disjoint groups of known sizes that hold exactly them. */
  ghost predicate Placed(groups: seq<CpuSet>, fill: seq<nat>, done: CpuSet, n: nat) {
    Disjoint(groups) && Filled(groups, fill) && Union(groups) == done && Sum(fill) == n
  }

  lemma PlaceOne(groups: seq<CpuSet>, fill: seq<nat>, done: CpuSet, n: nat, g: nat, cpu: nat)
    requires Placed(groups, fill, done, n) && g < |groups| && cpu !in done
    ensures Placed(groups[g := groups[g] + {cpu}], fill[g := fill[g] + 1], done + {cpu}, n + 1)
  {
    PlaceCpu(groups, g, cpu);
    MemberOfUnion(groups, g);
    SumUpdate(fill, g, fill[g] + 1);
  }

  /** Groups before `g` are at their quota, groups after it empty. */
  ghost predicate Filling(fill: seq<nat>, quota: seq<nat>, g: nat) {
    && |fill| == |quota| && g < |fill|
    && forall j :: 0 <= j < |fill| ==> fill[j] <= quota[j] && (j < g ==> fill[j] == quota[j]) && (j > g ==> fill[j] == 0)
  }

  /** Move on past the full groups. */
  method NextOpen(fill: seq<nat>, quota: seq<nat>, start: nat) returns (g: nat)
    requires Filling(fill, quota, start) && Sum(fill) < Sum(quota)
    ensures Filling(fill, quota, g) && fill[g] < quota[g]
  {
    g := start;
    while fill[g] == quota[g]
      invariant Filling(fill, quota, g)
      decreases |fill| - g
    {
      NotLast(fill, quota, g);
      g := g + 1;
    }
  }

  /** CPUs placed and to be placed are those of the list. */
  ghost predicate Rest(cpus: seq<nat>, done: CpuSet, rest: seq<nat>) {
    Distinct(rest) && |rest| <= |cpus| && done + Elems(rest) == Elems(cpus) && done !! Elems(rest)
  }

  lemma RestNext(cpus: seq<nat>, done: CpuSet, rest: seq<nat>)
    requires Rest(cpus, done, rest) && rest != []
    ensures rest[0] !in done && Rest(cpus, done + {rest[0]}, rest[1..])
  {
    RestElems(rest);
  }

  /** `x` is in a group up to `g`, or in one behind it. */
  ghost predicate UpTo(groups: seq<CpuSet>, g: nat, x: nat) {
    exists i :: 0 <= i <= g && i < |groups| && x in groups[i]
  }

  ghost predicate Past(groups: seq<CpuSet>, g: nat, x: nat) {
    exists j :: g < j < |groups| && x in groups[j]
  }

  /** In the list, the CPUs of each group come before those of the next. */
  ghost predicate InTurn(cpus: seq<nat>, groups: seq<CpuSet>) {
    forall a, b, g: nat :: 0 <= a < b < |cpus| && Past(groups, g, cpus[a]) ==> !UpTo(groups, g, cpus[b])
  }

  /** The CPUs before `rest` are placed, each group before the next. */
  ghost predicate Turning(cpus: seq<nat>, rest: seq<nat>, done: CpuSet, groups: seq<CpuSet>) {
    |rest| <= |cpus| && rest == cpus[|cpus| - |rest|..] && done == Elems(cpus[..|cpus| - |rest|]) && InTurn(cpus, groups)
  }

  lemma TurnOne(cpus: seq<nat>, k: nat, groups: seq<CpuSet>, g: nat, z: seq<CpuSet>)
    requires InTurn(cpus, groups) && Distinct(cpus) && k < |cpus| && Union(groups) == Elems(cpus[..k])
    requires g < |groups| && (forall j :: g < j < |groups| ==> groups[j] == {}) && z == groups[g := groups[g] + {cpus[k]}]
    ensures InTurn(cpus, z)
  {
    forall a, b, h: nat | 0 <= a < b < |cpus| && Past(z, h, cpus[a]) ensures !UpTo(z, h, cpus[b]) {
      TurnWas(cpus, k, groups, g, z, a, b, h);
    }
  }

  /** Two CPUs on either side of a boundary, the later one before it, were so already. */
  lemma TurnWas(cpus: seq<nat>, k: nat, groups: seq<CpuSet>, g: nat, z: seq<CpuSet>, a: nat, b: nat, h: nat)
    requires Distinct(cpus) && k < |cpus| && Union(groups) == Elems(cpus[..k]) && a < b < |cpus|
    requires g < |groups| && (forall j :: g < j < |groups| ==> groups[j] == {}) && z == groups[g := groups[g] + {cpus[k]}]
    ensures Past(z, h, cpus[a]) && UpTo(z, h, cpus[b]) ==> Past(groups, h, cpus[a]) && UpTo(groups, h, cpus[b])
  {
    if Past(z, h, cpus[a]) && UpTo(z, h, cpus[b]) {
      var p :| h < p < |z| && cpus[a] in z[p];
      var q :| 0 <= q <= h && q < |z| && cpus[b] in z[q];
      Member(cpus, k, groups, b, q);
      Member(cpus, k, groups, a, p);
    }
  }

  /** What is in a group is in front of what is still to be placed. */
  lemma Member(cpus: seq<nat>, k: nat, groups: seq<CpuSet>, a: nat, j: nat)
    requires Distinct(cpus) && k < |cpus| && Union(groups) == Elems(cpus[..k]) && a < |cpus| && j < |groups|
    ensures cpus[a] in groups[j] ==> a < k
  {
    MemberOfUnion(groups, j);
    if cpus[a] in groups[j] {
      assert cpus[a] in cpus[..k];
      var i :| 0 <= i < k && cpus[..k][i] == cpus[a];
      assert i == a;
    }
  }

  lemma RestMoves(cpus: seq<nat>, rest: seq<nat>)
    requires rest != [] && |rest| <= |cpus| && rest == cpus[|cpus| - |rest|..]
    ensures var k := |cpus| - |rest|;
            rest[0] == cpus[k] && rest[1..] == cpus[k + 1..] && Elems(cpus[..k + 1]) == Elems(cpus[..k]) + {rest[0]}
  {
    var k := |cpus| - |rest|;
    assert cpus[..k + 1] == cpus[..k] + [cpus[k]];
    SnocElems(cpus[..k], cpus[k]);
  }

  lemma TurnMore(cpus: seq<nat>, rest: seq<nat>, done: CpuSet, groups: seq<CpuSet>, g: nat, z: seq<CpuSet>)
    requires Turning(cpus, rest, done, groups) && Distinct(cpus) && rest != [] && Union(groups) == done
    requires g < |groups| && (forall j :: g < j < |groups| ==> groups[j] == {}) && z == groups[g := groups[g] + {rest[0]}]
    ensures Turning(cpus, rest[1..], done + {rest[0]}, z)
  {
    RestMoves(cpus, rest);
    TurnOne(cpus, |cpus| - |rest|, groups, g, z);
  }

  lemma LaterAreEmpty(groups: seq<CpuSet>, fill: seq<nat>, quota: seq<nat>, g: nat)
    requires Filled(groups, fill) && Filling(fill, quota, g)
    ensures forall j :: g < j < |groups| ==> groups[j] == {}
  {
  }

  /** Halfway through the present CPUs: `rest` is still to be placed. */
  ghost predicate Halfway(cpus: seq<nat>, rest: seq<nat>, done: CpuSet, groups: seq<CpuSet>, fill: seq<nat>, quota: seq<nat>, g: nat) {
    && Filling(fill, quota, g) && Rest(cpus, done, rest) && Placed(groups, fill, done, |cpus| - |rest|)
    && Turning(cpus, rest, done, groups)
  }

  lemma HalfwayStart(cpus: seq<nat>, seats: nat, groups: seq<CpuSet>, fill: seq<nat>, quota: seq<nat>)
    requires Distinct(cpus) && seats > 0 && |quota| == seats && groups == seq<CpuSet>(seats, _ => {}) && fill == seq<nat>(seats, _ => 0)
    ensures Halfway(cpus, cpus, {}, groups, fill, quota, 0)
  {
    ZeroSum(seats);
    EmptyUnion(seats);
    assert Elems([]) == {} && cpus[0..] == cpus && cpus[..0] == [];
  }

  lemma HalfwayNext(cpus: seq<nat>, rest: seq<nat>, done: CpuSet, groups: seq<CpuSet>, fill: seq<nat>, quota: seq<nat>, g: nat)
    requires Distinct(cpus) && Halfway(cpus, rest, done, groups, fill, quota, g) && rest != [] && fill[g] < quota[g]
    ensures Halfway(cpus, rest[1..], done + {rest[0]}, groups[g := groups[g] + {rest[0]}], fill[g := fill[g] + 1], quota, g)
  {
    RestNext(cpus, done, rest);
    LaterAreEmpty(groups, fill, quota, g);
    TurnMore(cpus, rest, done, groups, g, groups[g := groups[g] + {rest[0]}]);
    PlaceOne(groups, fill, done, |cpus| - |rest|, g, rest[0]);
    FillingNext(fill, quota, g);
    assert |cpus| - |rest[1..]| == |cpus| - |rest| + 1;
  }

  lemma FillingNext(fill: seq<nat>, quota: seq<nat>, g: nat)
    requires Filling(fill, quota, g) && fill[g] < quota[g]
    ensures Filling(fill[g := fill[g] + 1], quota, g)
  {
  }

  /** The present CPUs, in order, fill the groups to their present quotas, each group before the next. */
  method FillPresent(cpus: seq<nat>, seats: nat) returns (groups: seq<CpuSet>, fill: seq<nat>)
    requires seats > 0 && Distinct(cpus)
    ensures InTurn(cpus, groups)
    ensures |groups| == seats && Placed(groups, fill, Elems(cpus), |cpus|) && fill == SplitEven(|cpus|, seats)
  {
    var quota := SplitEven(|cpus|, seats);
    SplitIsEven(|cpus|, seats);
    groups := seq<CpuSet>(seats, _ => {});
    fill := seq<nat>(seats, _ => 0);
    var g := 0;
    var rest := cpus;
    ghost var done: CpuSet := {};
    HalfwayStart(cpus, seats, groups, fill, quota);
    while rest != []
      invariant |groups| == seats && Halfway(cpus, rest, done, groups, fill, quota, g)
      decreases |rest|
    {
      g := NextOpen(fill, quota, g);
      HalfwayNext(cpus, rest, done, groups, fill, quota, g);
      groups := groups[g := groups[g] + {rest[0]}];
      fill := fill[g := fill[g] + 1];
      done := done + {rest[0]};
      rest := rest[1..];
    }
    assert Elems([]) == {};
    AllFull(fill, quota);
  }

  lemma RestElems(rest: seq<nat>)
    requires rest != [] && Distinct(rest)
    ensures Elems(rest) == {rest[0]} + Elems(rest[1..]) && rest[0] !in Elems(rest[1..]) && Distinct(rest[1..])
  {
    assert rest == [rest[0]] + rest[1..];
    ElemsCons(rest[0], rest[1..]);
  }

  /** With CPUs still to place, the full groups are not all there are. */
  lemma NotLast(fill: seq<nat>, quota: seq<nat>, g: nat)
    requires |fill| == |quota| && g < |fill| && Sum(fill) < Sum(quota)
    requires (forall j :: 0 <= j <= g ==> fill[j] == quota[j])
    ensures g + 1 < |fill|
  {
    RoomSomewhere(fill, quota);
  }

  /** The group an absent CPU goes to: one with room, preferably holding a sibling. */
  method ChooseGroup(groups: seq<CpuSet>, fill: seq<nat>, quota: seq<nat>, sib: CpuSet) returns (j: nat)
    requires |fill| == |groups| == |quota| && Sum(fill) < Sum(quota)
    ensures j < |groups| && fill[j] < quota[j]
    ensures groups[j] * sib == {} ==> forall k :: 0 <= k < |groups| && fill[k] < quota[k] ==> groups[k] * sib == {}
  {
    var any: Option<nat> := None;
    for k := 0 to |groups|
      invariant any.Some? ==> any.value < |groups| && fill[any.value] < quota[any.value]
      invariant any.None? ==> forall i :: 0 <= i < k ==> fill[i] >= quota[i]
      invariant forall i :: 0 <= i < k && fill[i] < quota[i] ==> groups[i] * sib == {}
    {
      if fill[k] < quota[k] {
        if groups[k] * sib != {} {
          return k;
        }
        if any.None? {
          any := Some(k);
        }
      }
    }
    RoomSomewhere(fill, quota);
    return any.value;
  }

  /** Groups grown from `groups0` by some of `more`, never above quota. */
  ghost predicate Topped(groups0: seq<CpuSet>, groups: seq<CpuSet>, fill: seq<nat>, quota: seq<nat>, more: CpuSet) {
    && |groups| == |groups0| == |fill| == |quota|
    && (forall j :: 0 <= j < |fill| ==> fill[j] <= quota[j])
    && (forall j :: 0 <= j < |groups| ==> groups0[j] <= groups[j] <= groups0[j] + more)
  }

  /** One absent CPU joins a group with room. */
  method TopUp(groups: seq<CpuSet>, fill: seq<nat>, quota: seq<nat>, sib: CpuSet, cpu: nat,
               ghost groups0: seq<CpuSet>, ghost more: CpuSet, ghost done: CpuSet, ghost n: nat)
    returns (groups': seq<CpuSet>, fill': seq<nat>)
    requires Topped(groups0, groups, fill, quota, more) && Placed(groups, fill, done, n) && n < Sum(quota)
    requires cpu in more && cpu !in done
    ensures Topped(groups0, groups', fill', quota, more) && Placed(groups', fill', done + {cpu}, n + 1)
  {
    var j := ChooseGroup(groups, fill, quota, sib);
    PlaceOne(groups, fill, done, n, j, cpu);
    groups' := groups[j := groups[j] + {cpu}];
    fill' := fill[j := fill[j] + 1];
  }

  /** Absent CPUs top the groups up to their total quotas. */
  method FillAbsent(cpus: seq<nat>, groups0: seq<CpuSet>, fill0: seq<nat>, quota: seq<nat>, sibling: seq<CpuSet>,
                    ghost done0: CpuSet, ghost n0: nat)
    returns (groups: seq<CpuSet>, fill: seq<nat>)
    requires Distinct(cpus) && Elems(cpus) !! done0 && Placed(groups0, fill0, done0, n0)
    requires |quota| == |groups0| && Sum(quota) == n0 + |cpus| && forall j :: 0 <= j < |fill0| ==> fill0[j] <= quota[j]
    ensures Topped(groups0, groups, fill, quota, Elems(cpus)) && fill == quota
    ensures Placed(groups, fill, done0 + Elems(cpus), n0 + |cpus|)
  {
    groups, fill := groups0, fill0;
    var rest := cpus;
    ghost var done: CpuSet := {};
    while rest != []
      invariant Topped(groups0, groups, fill, quota, Elems(cpus)) && Rest(cpus, done, rest)
      invariant Placed(groups, fill, done0 + done, n0 + |cpus| - |rest|)
      decreases |rest|
    {
      RestNext(cpus, done, rest);
      assert rest[0] in Elems(rest);
      groups, fill := TopUp(groups, fill, quota, Mask(sibling, rest[0]), rest[0], groups0, Elems(cpus), done0 + done,
                            n0 + |cpus| - |rest|);
      assert done0 + done + {rest[0]} == done0 + (done + {rest[0]});
      done := done + {rest[0]};
      rest := rest[1..];
    }
    assert Elems([]) == {};
    assert done0 + done == done0 + Elems(cpus);
    AllFull(fill, quota);
  }

  /** The CPUs of the list that are in the set, or those that are not, in order. */
  function Keep(order: seq<nat>, s: CpuSet, inside: bool): seq<nat> {
    if order == [] then []
    else
      var n := |order| - 1;
      Keep(order[..n], s, inside) + if (order[n] in s) == inside then [order[n]] else []
  }

  lemma KeepNext(order: seq<nat>, i: nat, s: CpuSet, inside: bool)
    requires i < |order|
    ensures Keep(order[..i + 1], s, inside) == Keep(order[..i], s, inside) + if (order[i] in s) == inside then [order[i]] else []
  {
    assert order[..i + 1][..i] == order[..i];
  }

  method Partition(order: seq<nat>, present: CpuSet) returns (here: seq<nat>, gone: seq<nat>)
    ensures here == Keep(order, present, true) && gone == Keep(order, present, false)
  {
    here, gone := [], [];
    for i := 0 to |order|
      invariant here == Keep(order[..i], present, true) && gone == Keep(order[..i], present, false)
    {
      KeepNext(order, i, present, true);
      KeepNext(order, i, present, false);
      if order[i] in present {
        here := here + [order[i]];
      } else {
        gone := gone + [order[i]];
      }
    }
    assert order[..|order|] == order;
  }

  lemma {:induction false} KeepHas(order: seq<nat>, s: CpuSet, inside: bool, x: nat)
    ensures x in Keep(order, s, inside) <==> x in order && (x in s) == inside
    decreases |order|
  {
    if order != [] {
      var n := |order| - 1;
      KeepHas(order[..n], s, inside, x);
      assert order == order[..n] + [order[n]];
    }
  }

  lemma {:induction false} KeepDistinct(order: seq<nat>, s: CpuSet, inside: bool)
    requires Distinct(order)
    ensures Distinct(Keep(order, s, inside))
    decreases |order|
  {
    if order != [] {
      var n := |order| - 1;
      KeepDistinct(order[..n], s, inside);
      KeepHas(order[..n], s, inside, order[n]);
      SnocElems(Keep(order[..n], s, inside), order[n]);
    }
  }

  lemma {:induction false} KeepSizes(order: seq<nat>, s: CpuSet)
    ensures |Keep(order, s, true)| + |Keep(order, s, false)| == |order|
    decreases |order|
  {
    if order != [] {
      KeepSizes(order[..|order| - 1], s);
    }
  }

  /** The two lists have every CPU once, each on its side. */
  lemma KeepIs(order: seq<nat>, s: CpuSet)
    requires Distinct(order)
    ensures var here, gone := Keep(order, s, true), Keep(order, s, false);
            && Distinct(here) && Distinct(gone) && |here| + |gone| == |order|
            && Elems(here) == Elems(order) * s && Elems(gone) == Elems(order) - s
  {
    KeepDistinct(order, s, true);
    KeepDistinct(order, s, false);
    KeepSizes(order, s);
    forall x: nat
      ensures x in Elems(Keep(order, s, true)) <==> x in Elems(order) * s
      ensures x in Elems(Keep(order, s, false)) <==> x in Elems(order) - s
    {
      KeepHas(order, s, true, x);
      KeepHas(order, s, false, x);
    }
  }

  lemma SnocElems(s: seq<nat>, c: nat)
    ensures Elems(s + [c]) == Elems(s) + {c}
    ensures Distinct(s) && c !in Elems(s) ==> Distinct(s + [c])
  {
    if Distinct(s) && c !in Elems(s) {
      assert forall i :: 0 <= i < |s| ==> s[i] in Elems(s);
    }
  }

  /** The groups share out `cpus`: their sizes, and their present sizes, each differ by at most one. */
  ghost predicate SharedOut(groups: seq<CpuSet>, cpus: CpuSet, present: CpuSet) {
    && Disjoint(groups) && Union(groups) == cpus
    && (forall j :: 0 <= j < |groups| ==> |groups[j]| == Part(|cpus|, |groups|, j))
    && (forall j :: 0 <= j < |groups| ==> |groups[j] * present| == Part(|cpus * present|, |groups|, j))
  }

  /** Fill the present CPUs, then top up with the absent ones. */
  method PackLists(here: seq<nat>, gone: seq<nat>, seats: nat, sibling: seq<CpuSet>)
    returns (groups: seq<CpuSet>, ghost groups0: seq<CpuSet>, ghost fill0: seq<nat>, fill: seq<nat>)
    requires seats > 0 && Distinct(here) && Distinct(gone) && Elems(here) !! Elems(gone)
    ensures |groups| == seats && fill0 == SplitEven(|here|, seats) && fill == SplitEven(|here| + |gone|, seats)
    ensures Placed(groups0, fill0, Elems(here), |here|) && Topped(groups0, groups, fill, fill, Elems(gone))
    ensures Placed(groups, fill, Elems(here) + Elems(gone), |here| + |gone|) && InTurn(here, groups0)
  {
    var first, full := FillPresent(here, seats);
    groups0, fill0 := first, full;
    var quota := SplitEven(|here| + |gone|, seats);
    SplitIsEven(|here| + |gone|, seats);
    forall j | 0 <= j < seats ensures fill0[j] <= quota[j] {
      SplitMonotone(|here|, |here| + |gone|, seats, j);
    }
    groups, fill := FillAbsent(gone, first, full, quota, sibling, Elems(here), |here|);
  }

  /** `pack_node`: the CPUs the locality order has, shared out evenly, the present ones in its order. */
  method PackNode(node: CpuSet, seats: nat, topo: Topology) returns (groups: seq<CpuSet>)
    ensures |groups| == seats && (seats > 0 ==> SharedOut(groups, Reached(topo, node), topo.present))
    ensures InTurn(Keep(Order(topo, node), topo.present, true), groups)
  {
    if seats == 0 {
      return [];
    }
    var order := FillOrder(node, topo);
    var here, gone := Partition(order, topo.present);
    KeepIs(order, topo.present);
    ghost var groups0, fill0;
    var fill;
    groups, groups0, fill0, fill := PackLists(here, gone, seats, topo.sibling);
    OrderSizes(order, topo.present, here, gone);
    ListsShare(Elems(order), topo.present, Elems(here), Elems(gone), groups0, groups, fill0, fill);
    TurnStays(here, gone, groups0, groups, fill);
  }

  lemma OrderSizes(order: seq<nat>, present: CpuSet, here: seq<nat>, gone: seq<nat>)
    requires Distinct(order) && Distinct(here) && Elems(here) == Elems(order) * present && Elems(gone) == Elems(order) - present
    ensures |Elems(order)| == |order| && |Elems(here)| == |here| && Elems(here) + Elems(gone) == Elems(order)
  {
    ElemsSize(order);
    ElemsSize(here);
  }

  lemma ListsShare(all: CpuSet, present: CpuSet, here: CpuSet, gone: CpuSet, groups0: seq<CpuSet>, groups: seq<CpuSet>,
                   fill0: seq<nat>, fill: seq<nat>)
    requires here == all * present && gone == all - present && |groups| > 0
    requires Placed(groups0, fill0, here, |here|) && Topped(groups0, groups, fill, fill, gone) && Placed(groups, fill, all, |all|)
    requires fill0 == SplitEven(|here|, |groups|) && fill == SplitEven(|all|, |groups|)
    ensures SharedOut(groups, all, present)
  {
    PresentParts(groups0, groups, fill0, fill, fill, present, here, gone);
    forall j | 0 <= j < |groups|
      ensures |groups[j]| == Part(|all|, |groups|, j) && |groups[j] * present| == Part(|all * present|, |groups|, j)
    {
      assert |groups[j] * present| == fill0[j] && |groups[j]| == fill[j];
    }
  }

  /** Topping up moves none of the CPUs filled first. */
  lemma TurnStays(here: seq<nat>, gone: seq<nat>, groups0: seq<CpuSet>, groups: seq<CpuSet>, fill: seq<nat>)
    requires InTurn(here, groups0) && Elems(here) !! Elems(gone) && Topped(groups0, groups, fill, fill, Elems(gone))
    ensures InTurn(here, groups)
  {
    assert forall a :: 0 <= a < |here| ==> here[a] in Elems(here);
    forall a, b, g: nat | 0 <= a < b < |here| && Past(groups, g, here[a]) ensures !UpTo(groups, g, here[b]) {
      assert Past(groups0, g, here[a]);
      assert UpTo(groups, g, here[b]) ==> UpTo(groups0, g, here[b]);
    }
  }

  /** What was filled first is exactly what is present. */
  lemma PresentParts(groups0: seq<CpuSet>, groups: seq<CpuSet>, fill0: seq<nat>, fill: seq<nat>, quota: seq<nat>,
                     present: CpuSet, here: CpuSet, gone: CpuSet)
    requires Placed(groups0, fill0, here, Sum(fill0)) && Topped(groups0, groups, fill, quota, gone)
    requires here <= present && gone !! present && Filled(groups, fill)
    ensures forall j :: 0 <= j < |groups| ==> |groups[j] * present| == fill0[j] && |groups[j]| == fill[j]
  {
    forall j | 0 <= j < |groups| ensures groups[j] * present == groups0[j] {
      MemberOfUnion(groups0, j);
    }
  }

  // ----- the whole machine -----

  /** The groups of all nodes, one after the other. */
  lemma JoinGroups(a: seq<CpuSet>, b: seq<CpuSet>)
    requires Disjoint(a) && Disjoint(b) && Union(a) !! Union(b)
    ensures Disjoint(a + b) && Union(a + b) == Union(a) + Union(b)
  {
    UnionAppend(a, b);
    forall i, j | 0 <= i < j < |a + b| ensures (a + b)[i] !! (a + b)[j] {
      if i < |a| <= j {
        MemberOfUnion(a, i);
        MemberOfUnion(b, j - |a|);
      }
    }
  }

  ghost function Evenly(topo: Topology): (CpuSet, seq<CpuSet>) -> bool {
    (node: CpuSet, part: seq<CpuSet>) =>
      SharedOut(part, Reached(topo, node), topo.present) && InTurn(Keep(Order(topo, node), topo.present, true), part)
  }

  /** The groups are those of the nodes, one node after the other, each `well` in as many groups as it has seats. */
  ghost predicate Seated(well: (CpuSet, seq<CpuSet>) -> bool, nodes: seq<CpuSet>, seats: seq<nat>, groups: seq<CpuSet>) {
    |seats| == |nodes| &&
    if nodes == [] then groups == []
    else
      && 0 < seats[0] <= |groups| && well(nodes[0], groups[..seats[0]])
      && Seated(well, nodes[1..], seats[1..], groups[seats[0]..])
  }

  lemma {:induction false} SeatedSnoc(well: (CpuSet, seq<CpuSet>) -> bool, nodes: seq<CpuSet>, seats: seq<nat>,
                                      groups: seq<CpuSet>, node: CpuSet, n: nat, more: seq<CpuSet>)
    requires Seated(well, nodes, seats, groups) && 0 < n == |more| && well(node, more)
    ensures Seated(well, nodes + [node], seats + [n], groups + more)
    decreases |nodes|
  {
    if nodes == [] {
      assert nodes + [node] == [node] && seats + [n] == [n] && groups + more == more;
      assert more[..n] == more && more[n..] == [] && [node][1..] == [] && [n][1..] == [];
    } else {
      var k := seats[0];
      assert (nodes + [node])[1..] == nodes[1..] + [node] && (seats + [n])[1..] == seats[1..] + [n];
      assert (groups + more)[..k] == groups[..k] && (groups + more)[k..] == groups[k..] + more;
      SeatedSnoc(well, nodes[1..], seats[1..], groups[k..], node, n, more);
    }
  }

  /** What holds of each node's groups, for any share `kept` of its CPUs. */
  ghost predicate Keeps(well: (CpuSet, seq<CpuSet>) -> bool, kept: CpuSet -> CpuSet) {
    forall node: CpuSet, part: seq<CpuSet> :: well(node, part) ==> Disjoint(part) && Union(part) == kept(node) <= node
  }

  lemma TailDisjoint(nodes: seq<CpuSet>)
    requires Disjoint(nodes) && nodes != []
    ensures Disjoint(nodes[1..])
  {
    assert forall i :: 0 <= i < |nodes[1..]| ==> nodes[1..][i] == nodes[i + 1];
  }

  /** Groups so seated are as many as the seats, disjoint, and hold what was kept. */
  lemma {:induction false} SeatedUnion(well: (CpuSet, seq<CpuSet>) -> bool, kept: CpuSet -> CpuSet,
                                       nodes: seq<CpuSet>, seats: seq<nat>, groups: seq<CpuSet>)
    requires Keeps(well, kept) && Seated(well, nodes, seats, groups) && Disjoint(nodes)
    ensures |groups| == Sum(seats) && Disjoint(groups) && Union(groups) <= Union(nodes)
    ensures (forall i :: 0 <= i < |nodes| ==> kept(nodes[i]) == nodes[i]) <==> Union(groups) == Union(nodes)
    decreases |nodes|
  {
    if nodes != [] {
      var k := seats[0];
      var rest := nodes[1..];
      TailDisjoint(nodes);
      SeatedUnion(well, kept, rest, seats[1..], groups[k..]);
      HeadApart(nodes);
      assert well(nodes[0], groups[..k]);
      JoinGroups(groups[..k], groups[k..]);
      assert groups == groups[..k] + groups[k..];
      KeptSplit(kept, nodes);
      UnionSplit(kept(nodes[0]), nodes[0], Union(groups[k..]), Union(rest));
    }
  }

  lemma KeptSplit(kept: CpuSet -> CpuSet, nodes: seq<CpuSet>)
    requires nodes != []
    ensures (forall i :: 0 <= i < |nodes| ==> kept(nodes[i]) == nodes[i]) <==>
            kept(nodes[0]) == nodes[0] && forall i :: 0 <= i < |nodes[1..]| ==> kept(nodes[1..][i]) == nodes[1..][i]
  {
    assert forall i :: 0 < i < |nodes| ==> nodes[i] == nodes[1..][i - 1];
  }

  /** Parts of two disjoint sets make up the whole exactly when each is all of its set. */
  lemma UnionSplit(a: CpuSet, n: CpuSet, b: CpuSet, m: CpuSet)
    requires a <= n && b <= m && n !! m
    ensures a + b == n + m <==> a == n && b == m
  {
    if a + b == n + m {
      forall x | x in n ensures x in a {
        assert x in a + b;
      }
      forall x | x in m ensures x in b {
        assert x in a + b;
      }
    }
  }

  lemma EvenlyKeeps(topo: Topology)
    ensures Keeps(Evenly(topo), (node: CpuSet) => Reached(topo, node))
  {
    forall node: CpuSet, part: seq<CpuSet> | Evenly(topo)(node, part)
      ensures Disjoint(part) && Union(part) == Reached(topo, node) <= node
    {
      OrderIsDistinct(topo, node);
    }
  }

  lemma SeatedCovers(topo: Topology, nodes: seq<CpuSet>, seats: seq<nat>, groups: seq<CpuSet>)
    requires Seated(Evenly(topo), nodes, seats, groups) && Disjoint(nodes)
    ensures |groups| == Sum(seats) && Disjoint(groups) && Union(groups) <= Union(nodes)
    ensures Union(groups) == Union(nodes) <==> AllReached(topo, nodes)
    ensures Unshadowed(topo, Union(nodes)) ==> Union(groups) == Union(nodes)
  {
    EvenlyKeeps(topo);
    SeatedUnion(Evenly(topo), (node: CpuSet) => Reached(topo, node), nodes, seats, groups);
    if Unshadowed(topo, Union(nodes)) {
      forall i | 0 <= i < |nodes| ensures Reached(topo, nodes[i]) == nodes[i] {
        MemberOfUnion(nodes, i);
        OrderIsDistinct(topo, nodes[i]);
      }
    }
  }

  lemma SeatedMore(well: (CpuSet, seq<CpuSet>) -> bool, nodes: seq<CpuSet>, seats: seq<nat>, groups: seq<CpuSet>,
                   k: nat, packed: seq<CpuSet>)
    requires k < |nodes| == |seats| && 0 < seats[k] == |packed| && well(nodes[k], packed)
    requires Seated(well, nodes[..k], seats[..k], groups)
    ensures Seated(well, nodes[..k + 1], seats[..k + 1], groups + packed)
  {
    SeatedSnoc(well, nodes[..k], seats[..k], groups, nodes[k], seats[k], packed);
    assert nodes[..k + 1] == nodes[..k] + [nodes[k]] && seats[..k + 1] == seats[..k] + [seats[k]];
  }

  /** Each node is packed into the seats it was given. */
  method PackNodes(nodes: seq<CpuSet>, seats: seq<nat>, topo: Topology) returns (groups: seq<CpuSet>)
    requires |seats| == |nodes| && (forall i :: 0 <= i < |seats| ==> seats[i] > 0)
    ensures Seated(Evenly(topo), nodes, seats, groups)
  {
    groups := [];
    for k := 0 to |nodes|
      invariant Seated(Evenly(topo), nodes[..k], seats[..k], groups)
    {
      var packed := PackNode(nodes[k], seats[k], topo);
      SeatedMore(Evenly(topo), nodes, seats, groups, k, packed);
      groups := groups + packed;
    }
    assert nodes[..|nodes|] == nodes && seats[..|seats|] == seats;
  }

  /** The nodes' CPUs that are possible, nodes without any left out. */
  ghost function Clipped(topo: Topology, nodes: seq<CpuSet>): seq<CpuSet> {
    if nodes == [] then []
    else
      var rest := Clipped(topo, nodes[1..]);
      if nodes[0] * topo.possible == {} then rest else [nodes[0] * topo.possible] + rest
  }

  lemma {:induction false} ClippedOk(topo: Topology, nodes: seq<CpuSet>)
    requires Disjoint(nodes)
    ensures var c := Clipped(topo, nodes);
            Disjoint(c) && Union(c) == Union(nodes) * topo.possible && forall i :: 0 <= i < |c| ==> c[i] != {}
  {
    if nodes != [] {
      var rest := Clipped(topo, nodes[1..]);
      assert Disjoint(nodes[1..]) by {
        assert forall i :: 0 <= i < |nodes[1..]| ==> nodes[1..][i] == nodes[i + 1];
      }
      ClippedOk(topo, nodes[1..]);
      HeadApart(nodes);
      forall j | 0 <= j < |rest| ensures nodes[0] !! rest[j] {
        MemberOfUnion(rest, j);
      }
      var head := nodes[0] * topo.possible;
      assert Union(nodes) * topo.possible == head + Union(nodes[1..]) * topo.possible;
      if head != {} {
        assert Clipped(topo, nodes) == [head] + rest && ([head] + rest)[1..] == rest;
      }
    }
  }

  lemma HeadApart(nodes: seq<CpuSet>)
    requires Disjoint(nodes) && nodes != []
    ensures nodes[0] !! Union(nodes[1..])
  {
    forall c | c in nodes[0] ensures c !in Union(nodes[1..]) {
      InUnion(nodes[1..], c);
    }
  }

  method Clip(topo: Topology) returns (nodes: seq<CpuSet>)
    ensures nodes == Clipped(topo, topo.nodes)
  {
    nodes := [];
    var rest := topo.nodes;
    while rest != []
      invariant nodes + Clipped(topo, rest) == Clipped(topo, topo.nodes)
      decreases |rest|
    {
      var n := rest[0] * topo.possible;
      if n != {} {
        assert nodes + ([n] + Clipped(topo, rest[1..])) == nodes + [n] + Clipped(topo, rest[1..]);
        nodes := nodes + [n];
      }
      rest := rest[1..];
    }
  }

  lemma {:induction false} PositiveSum(w: seq<nat>, i: nat)
    requires i < |w| && w[i] > 0
    ensures Sum(w) > 0
  {
    if i > 0 {
      PositiveSum(w[1..], i - 1);
    }
  }

  /** Present CPUs per node, or all of them when none is present anywhere. */
  ghost predicate AreWeights(weights: seq<nat>, nodes: seq<CpuSet>, present: CpuSet) {
    && |weights| == |nodes|
    && if Union(nodes) * present == {} then forall i :: 0 <= i < |nodes| ==> weights[i] == |nodes[i]|
       else forall i :: 0 <= i < |nodes| ==> weights[i] == |nodes[i] * present|
  }

  lemma NoneIsPresent(nodes: seq<CpuSet>, present: CpuSet)
    ensures Union(nodes) * present == {} <==> forall i :: 0 <= i < |nodes| ==> nodes[i] * present == {}
  {
    forall i | 0 <= i < |nodes| && Union(nodes) * present == {} ensures nodes[i] * present == {} {
      MemberOfUnion(nodes, i);
    }
    forall c | c in Union(nodes) * present ensures exists i :: 0 <= i < |nodes| && c in nodes[i] * present {
      InUnion(nodes, c);
      var i :| 0 <= i < |nodes| && c in nodes[i];
      assert c in nodes[i] * present;
    }
  }

  method Weights(nodes: seq<CpuSet>, present: CpuSet) returns (weights: seq<nat>)
    requires nodes != [] && forall i :: 0 <= i < |nodes| ==> nodes[i] != {}
    ensures AreWeights(weights, nodes, present) && Sum(weights) > 0
  {
    NoneIsPresent(nodes, present);
    weights := seq<nat>(|nodes|, i requires 0 <= i < |nodes| => |nodes[i] * present|);
    var k := 0;
    while k < |weights| && weights[k] == 0
      invariant 0 <= k <= |weights| && forall i :: 0 <= i < k ==> weights[i] == 0
      decreases |weights| - k
    {
      k := k + 1;
    }
    if k == |weights| {
      forall i | 0 <= i < |nodes| ensures nodes[i] * present == {} {
        assert weights[i] == 0;
      }
      weights := seq<nat>(|nodes|, i requires 0 <= i < |nodes| => |nodes[i]|);
      k := 0;
    } else {
      assert nodes[k] * present != {};
    }
    PositiveSum(weights, k);
  }

  /** With a seat for every node: seats by apportionment of the weights, and each node shared out over its own. */
  ghost predicate SpreadInNodes(topo: Topology, nodes: seq<CpuSet>, ngroups: nat, groups: seq<CpuSet>) {
    exists weights: seq<nat>, seats: seq<nat> ::
      && AreWeights(weights, nodes, topo.present) && Apportioned(ngroups, weights, seats)
      && Seated(Evenly(topo), nodes, seats, groups)
  }

  /** With fewer groups than nodes: whole nodes, and no group heavier than another by more than the lightest of its own. */
  ghost predicate SpreadWhole(topo: Topology, nodes: seq<CpuSet>, groups: seq<CpuSet>) {
    exists weights: seq<nat>, loads: seq<nat>, owner: seq<int> ::
      && AreWeights(weights, nodes, topo.present) && Packed(nodes, weights, groups, loads, owner)
      && |owner| == |weights| && Balanced(weights, owner, loads) && (forall i :: 0 <= i < |owner| ==> 0 <= owner[i] < |groups|)
  }

  /** The locality orders of the nodes have all their CPUs. */
  ghost predicate AllReached(topo: Topology, nodes: seq<CpuSet>) {
    forall i :: 0 <= i < |nodes| ==> Reached(topo, nodes[i]) == nodes[i]
  }

  /**
    `spread_cpus`: exactly `ngroups` groups, disjoint, covering every possible
    CPU exactly if the locality order of no node loses one, or whole nodes are
    handed out.
   */
  method SpreadCpus(ngroups: nat, topo: Topology) returns (groups: seq<CpuSet>)
    requires Disjoint(topo.nodes) && topo.possible <= Union(topo.nodes)
    ensures |groups| == ngroups && Disjoint(groups) && Union(groups) <= topo.possible
    ensures ngroups > 0 && (ngroups < |Clipped(topo, topo.nodes)| || Unshadowed(topo, topo.possible)) ==>
      Union(groups) == topo.possible
    ensures ngroups >= |Clipped(topo, topo.nodes)| > 0 ==> (Union(groups) == topo.possible <==> AllReached(topo, Clipped(topo, topo.nodes)))
    ensures ngroups >= |Clipped(topo, topo.nodes)| > 0 ==> SpreadInNodes(topo, Clipped(topo, topo.nodes), ngroups, groups)
    ensures 0 < ngroups < |Clipped(topo, topo.nodes)| ==> SpreadWhole(topo, Clipped(topo, topo.nodes), groups)
  {
    if ngroups == 0 {
      return [];
    }
    var nodes := Clip(topo);
    ClippedOk(topo, topo.nodes);
    assert Union(nodes) == topo.possible;
    if nodes == [] {
      EmptyUnion(ngroups);
      return seq<CpuSet>(ngroups, _ => {});
    }
    var weights := Weights(nodes, topo.present);
    if ngroups < |nodes| {
      var loads: seq<nat>;
      ghost var owner: seq<int>;
      groups, loads, owner := PackWholeNodes(ngroups, nodes, weights);
      WholeCovers(nodes, owner, groups);
      return groups;
    }
    var seats := Apportion(ngroups, weights);
    groups := PackNodes(nodes, seats, topo);
    SeatedCovers(topo, nodes, seats, groups);
  }
}
