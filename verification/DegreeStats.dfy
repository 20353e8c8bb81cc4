/** The dependency statistics: degrees, edges, leaves and roots. */
module DegreeStats {
  import opened Digraph
  import opened Sorting
  import opened Lists
  import opened Rounding

  // The edges that leave a vertex of s.
  ghost function EdgesFrom(g: Graph, s: set<Vertex>): set<(Vertex, Vertex)> {
    set u, v | u in s && v in Succ(g, u) :: (u, v)
  }

  ghost function Edges(g: Graph): set<(Vertex, Vertex)> {
    EdgesFrom(g, g.Keys)
  }

  ghost function EdgesInto(g: Graph, s: set<Vertex>): set<(Vertex, Vertex)> {
    set e | e in Edges(g) && e.1 in s
  }

  function Preds(g: Graph, v: Vertex): set<Vertex> {
    set u | u in g && v in g[u]
  }

  ghost function Targets(g: Graph): set<Vertex> {
    set e | e in Edges(g) :: e.1
  }

  function Leaves(g: Graph): set<Vertex> {
    set u | u in g && g[u] == {}
  }

  function Roots(g: Graph): set<Vertex> {
    set u | u in g && Preds(g, u) == {}
  }

  datatype Ranked = Ranked(vertex: Vertex, degree: nat)

  datatype Stats = Stats(
    modules: nat, edges: nat, average: real, importers: seq<Ranked>, imported: seq<Ranked>,
    leaves: nat, roots: nat, sample: seq<string>)

  function Degree(d: map<Vertex, nat>, v: Vertex): nat {
    if v in d then d[v] else 0
  }

  // Pairing with a fixed vertex changes no size.
  lemma {:induction false} PairSize(u: Vertex, s: set<Vertex>, pairs: set<(Vertex, Vertex)>, asSource: bool)
    requires forall e :: e in pairs <==> (if asSource then e.0 == u && e.1 in s else e.1 == u && e.0 in s)
    ensures |pairs| == |s|
    decreases s
  {
    if s == {} {
      assert pairs == {};
    } else {
      var x :| x in s;
      var e := if asSource then (u, x) else (x, u);
      PairSize(u, s - {x}, pairs - {e}, asSource);
      assert pairs == (pairs - {e}) + {e};
    }
  }

  lemma EdgeMembers(g: Graph, s: set<Vertex>)
    ensures forall e :: e in EdgesFrom(g, s) <==> e.0 in s && e.1 in Succ(g, e.0)
  {
  }

  lemma OneMoreSource(g: Graph, s: set<Vertex>, u: Vertex)
    requires u !in s
    ensures |EdgesFrom(g, s + {u})| == |EdgesFrom(g, s)| + |Succ(g, u)|
  {
    hide EdgesFrom, Succ;
    EdgeMembers(g, s);
    EdgeMembers(g, {u});
    EdgeMembers(g, s + {u});
    PairSize(u, Succ(g, u), EdgesFrom(g, {u}), true);
    assert EdgesFrom(g, s + {u}) == EdgesFrom(g, s) + EdgesFrom(g, {u});
  }

  lemma OneMoreTarget(g: Graph, s: set<Vertex>, v: Vertex)
    requires v !in s
    ensures |EdgesInto(g, s + {v})| == |EdgesInto(g, s)| + |Preds(g, v)|
  {
    hide EdgesFrom;
    EdgeMembers(g, g.Keys);
    PairSize(v, Preds(g, v), EdgesInto(g, {v}), false);
    assert EdgesInto(g, s + {v}) == EdgesInto(g, s) + EdgesInto(g, {v});
  }

  // The inner loop: one more dependent for each dependency of a module.
  method CountDependents(deps: set<Vertex>, before: map<Vertex, nat>) returns (inDegree: map<Vertex, nat>)
    ensures forall v :: Degree(inDegree, v) == Degree(before, v) + if v in deps then 1 else 0
    ensures inDegree.Keys == before.Keys + deps
  {
    inDegree := before;
    var rest := deps;
    while rest != {}
      invariant rest <= deps
      invariant forall v :: Degree(inDegree, v) == Degree(before, v) + if v in deps - rest then 1 else 0
      invariant inDegree.Keys == before.Keys + (deps - rest)
    {
      var dep :| dep in rest;
      inDegree := inDegree[dep := Degree(inDegree, dep) + 1];
      rest := rest - {dep};
    }
  }

  ghost function Among(g: Graph, s: set<Vertex>): Graph {
    map u | u in g && u in s :: g[u]
  }

  lemma OneMoreDependent(g: Graph, s: set<Vertex>, u: Vertex)
    requires u in g && u !in s
    ensures forall v :: |Preds(Among(g, s + {u}), v)| == |Preds(Among(g, s), v)| + if v in g[u] then 1 else 0
  {
    forall v
      ensures |Preds(Among(g, s + {u}), v)| == |Preds(Among(g, s), v)| + if v in g[u] then 1 else 0
    {
      var before, after := Preds(Among(g, s), v), Preds(Among(g, s + {u}), v);
      assert after == if v in g[u] then before + {u} else before;
    }
  }

  ghost function DependedOn(g: Graph, s: set<Vertex>): set<Vertex> {
    set u, v | u in s && v in Succ(g, u) :: v
  }

  lemma DependedOnGrows(g: Graph, s: set<Vertex>, u: Vertex)
    requires u in g
    ensures DependedOn(g, s + {u}) == DependedOn(g, s) + g[u]
  {
    forall v | v in g[u]
      ensures v in DependedOn(g, s + {u})
    {
      assert u in s + {u} && v in Succ(g, u);
    }
  }

  lemma DependedOnAreTargets(g: Graph)
    ensures DependedOn(g, g.Keys) == Targets(g)
  {
    forall v | v in DependedOn(g, g.Keys)
      ensures v in Targets(g)
    {
      var u :| u in g && v in g[u];
      assert (u, v) in Edges(g);
    }
  }

  // The in-degrees as the modules in s give them.
  ghost predicate Counts(inDegree: map<Vertex, nat>, g: Graph, s: set<Vertex>) {
    && inDegree.Keys == DependedOn(g, s)
    && forall v :: Degree(inDegree, v) == |Preds(Among(g, s), v)|
  }

  lemma CountsNone(g: Graph)
    ensures Counts(map[], g, {})
  {
    assert forall v :: Preds(Among(g, {}), v) == {};
  }

  lemma CountsStep(before: map<Vertex, nat>, after: map<Vertex, nat>, g: Graph, s: set<Vertex>, u: Vertex)
    requires Counts(before, g, s) && u in g && u !in s
    requires forall v :: Degree(after, v) == Degree(before, v) + if v in g[u] then 1 else 0
    requires after.Keys == before.Keys + g[u]
    ensures Counts(after, g, s + {u})
  {
    hide Degree, Preds, Among, DependedOn;
    OneMoreDependent(g, s, u);
    DependedOnGrows(g, s, u);
  }

  lemma CountsAll(inDegree: map<Vertex, nat>, g: Graph)
    requires Counts(inDegree, g, g.Keys)
    ensures inDegree.Keys == Targets(g) && forall v :: Degree(inDegree, v) == |Preds(g, v)|
  {
    hide Preds, Degree;
    assert Among(g, g.Keys) == g;
    DependedOnAreTargets(g);
  }

  ghost function OutDegrees(g: Graph, s: set<Vertex>): map<Vertex, nat> {
    map u | u in g && u in s :: |g[u]|
  }

  lemma OutNone(g: Graph)
    ensures OutDegrees(g, {}) == map[]
  {
  }

  lemma OutStep(g: Graph, s: set<Vertex>, u: Vertex)
    requires u in g
    ensures OutDegrees(g, s + {u}) == OutDegrees(g, s)[u := |g[u]|]
  {
  }

  lemma OutAll(g: Graph)
    ensures OutDegrees(g, g.Keys).Keys == g.Keys && forall u :: u in g ==> OutDegrees(g, g.Keys)[u] == |g[u]|
  {
  }

  // The degree loops of compute_stats.
  method CountDegrees(g: Graph) returns (outDegree: map<Vertex, nat>, inDegree: map<Vertex, nat>)
    ensures outDegree.Keys == g.Keys && forall u :: u in g ==> outDegree[u] == |g[u]|
    ensures inDegree.Keys == Targets(g)
    ensures forall v :: Degree(inDegree, v) == |Preds(g, v)|
  {
    hide Counts, Degree, Preds, Targets, OutDegrees;
    outDegree, inDegree := map[], map[];
    var rest := g.Keys;
    CountsNone(g);
    OutNone(g);
    assert g.Keys - rest == {};
    while rest != {}
      invariant rest <= g.Keys
      invariant outDegree == OutDegrees(g, g.Keys - rest) && Counts(inDegree, g, g.Keys - rest)
    {
      var node :| node in rest;
      OutStep(g, g.Keys - rest, node);
      outDegree := outDegree[node := |g[node]|];
      inDegree := AddDependents(g, g.Keys - rest, node, inDegree);
      assert g.Keys - (rest - {node}) == (g.Keys - rest) + {node};
      rest := rest - {node};
    }
    assert g.Keys - rest == g.Keys;
    CountsAll(inDegree, g);
    OutAll(g);
  }

  method AddDependents(g: Graph, ghost done: set<Vertex>, node: Vertex, before: map<Vertex, nat>)
    returns (inDegree: map<Vertex, nat>)
    requires node in g && node !in done && Counts(before, g, done)
    ensures Counts(inDegree, g, done + {node})
  {
    hide Counts, Degree;
    inDegree := CountDependents(g[node], before);
    CountsStep(before, inDegree, g, done, node);
  }

  // sum(out_degree.values())
  method SumOut(g: Graph, outDegree: map<Vertex, nat>) returns (total: nat)
    requires outDegree.Keys == g.Keys && forall u :: u in g ==> outDegree[u] == |g[u]|
    ensures total == |Edges(g)|
  {
    total := 0;
    var rest := outDegree.Keys;
    assert EdgesFrom(g, {}) == {};
    while rest != {}
      invariant rest <= g.Keys && total == |EdgesFrom(g, g.Keys - rest)|
    {
      var u :| u in rest;
      OneMoreSource(g, g.Keys - rest, u);
      assert g.Keys - (rest - {u}) == (g.Keys - rest) + {u};
      total := total + outDegree[u];
      rest := rest - {u};
    }
    assert g.Keys - rest == g.Keys;
  }

  // depended_on
  method CollectDependedOn(g: Graph) returns (depended: set<Vertex>)
    ensures depended == DependedOn(g, g.Keys)
  {
    depended := {};
    var rest := g.Keys;
    while rest != {}
      invariant rest <= g.Keys && depended == DependedOn(g, g.Keys - rest)
    {
      hide DependedOn;
      var u :| u in rest;
      DependedOnGrows(g, g.Keys - rest, u);
      assert g.Keys - (rest - {u}) == (g.Keys - rest) + {u};
      depended := depended + g[u];
      rest := rest - {u};
    }
    assert g.Keys - rest == g.Keys;
  }

  lemma RootsAreNotDependedOn(g: Graph)
    ensures Roots(g) == g.Keys - DependedOn(g, g.Keys)
  {
    forall u | u in g
      ensures u in DependedOn(g, g.Keys) <==> Preds(g, u) != {}
    {
      if u in DependedOn(g, g.Keys) {
        var x :| x in g && u in g[x];
        assert x in Preds(g, u);
      }
      if Preds(g, u) != {} {
        var x :| x in Preds(g, u);
        assert x in g.Keys && u in Succ(g, x);
      }
    }
  }

  // ---- the highest degrees ----

  function Descending(): (Ranked, Ranked) -> bool {
    (a: Ranked, b: Ranked) => a.degree >= b.degree
  }

  // Every key of d once, with its degree.
  ghost predicate ListsAll(items: seq<Ranked>, d: map<Vertex, nat>) {
    && (forall i :: 0 <= i < |items| ==> items[i].vertex in d && items[i].degree == d[items[i].vertex])
    && (forall i, j :: 0 <= i < j < |items| ==> items[i].vertex != items[j].vertex)
    && (forall v :: v in d ==> Ranked(v, d[v]) in items)
  }

  // At most n keys with their degrees, the highest first, and no key left out has a higher degree.
  ghost predicate IsTop(top: seq<Ranked>, d: map<Vertex, nat>, n: nat) {
    && |top| == (if |d| <= n then |d| else n)
    && (forall i :: 0 <= i < |top| ==> top[i].vertex in d && top[i].degree == d[top[i].vertex])
    && (forall i, j :: 0 <= i < j < |top| ==> top[i].vertex != top[j].vertex && top[i].degree >= top[j].degree)
    && (forall v, i :: v in d && Ranked(v, d[v]) !in top && 0 <= i < |top| ==> d[v] <= top[i].degree)
  }

  lemma ListStep(items: seq<Ranked>, done: map<Vertex, nat>, v: Vertex, n: nat)
    requires ListsAll(items, done) && v !in done
    ensures ListsAll(items + [Ranked(v, n)], done[v := n])
  {
    assert forall x :: x in items + [Ranked(v, n)] <==> x in items || x == Ranked(v, n);
  }

  lemma ListedLength(items: seq<Ranked>, d: map<Vertex, nat>)
    requires ListsAll(items, d)
    ensures |items| == |d|
  {
    var keys := seq(|items|, i requires 0 <= i < |items| => items[i].vertex);
    forall v | v in d
      ensures v in keys
    {
      var i :| 0 <= i < |items| && items[i] == Ranked(v, d[v]);
      assert keys[i] == v;
    }
    assert Members(keys) == d.Keys;
    DistinctCount(keys);
  }

  method ListDegrees(d: map<Vertex, nat>) returns (items: seq<Ranked>)
    ensures ListsAll(items, d) && |items| == |d|
  {
    items := [];
    var rest := d.Keys;
    ghost var done: map<Vertex, nat> := map[];
    assert ListsAll(items, done);
    hide ListsAll;
    while rest != {}
      invariant rest <= d.Keys && done.Keys == d.Keys - rest
      invariant forall v :: v in done ==> done[v] == d[v]
      invariant ListsAll(items, done)
    {
      var v :| v in rest;
      ListStep(items, done, v, d[v]);
      items := items + [Ranked(v, d[v])];
      done := done[v := d[v]];
      rest := rest - {v};
    }
    assert done == d;
    ListedLength(items, d);
  }

  lemma SortedLists(items: seq<Ranked>, d: map<Vertex, nat>)
    requires ListsAll(items, d)
    ensures ListsAll(Sort(Descending(), items), d) && SortedBy(Descending(), Sort(Descending(), items))
    ensures |Sort(Descending(), items)| == |items|
  {
    hide Sort;
    var sorted := Sort(Descending(), items);
    SortSorts(Descending(), items);
    SameMembers(sorted, items);
    DistinctPermutes(items, sorted);
    forall i | 0 <= i < |sorted|
      ensures sorted[i].vertex in d && sorted[i].degree == d[sorted[i].vertex]
    {
      assert sorted[i] in sorted;
      assert sorted[i] in items;
    }
  }

  // sorted(..., key=lambda x: -x[1])[:n]
  method TopDegrees(d: map<Vertex, nat>, n: nat) returns (top: seq<Ranked>)
    ensures IsTop(top, d, n)
  {
    var items := ListDegrees(d);
    SortedLists(items, d);
    hide Sort;
    var sorted := Sort(Descending(), items);
    top := Take(sorted, n);
    TakeIsTop(sorted, d, n);
  }

  lemma TakeIsTop(sorted: seq<Ranked>, d: map<Vertex, nat>, n: nat)
    requires ListsAll(sorted, d) && SortedBy(Descending(), sorted) && |sorted| == |d|
    ensures IsTop(Take(sorted, n), d, n)
  {
    var top := Take(sorted, n);
    forall i, j | 0 <= i < j < |top|
      ensures top[i].vertex != top[j].vertex && top[i].degree >= top[j].degree
    {
      assert Descending()(sorted[i], sorted[j]);
    }
    forall v, i | v in d && Ranked(v, d[v]) !in top && 0 <= i < |top|
      ensures d[v] <= top[i].degree
    {
      var k :| 0 <= k < |sorted| && sorted[k] == Ranked(v, d[v]);
      assert Descending()(sorted[i], sorted[k]);
    }
  }

  function NamesIn(s: set<Vertex>): set<string> {
    set v | v in s :: v.name
  }

  ghost predicate FirstNames(sample: seq<string>, s: set<Vertex>, n: nat) {
    exists all :: Sorted(all, NamesIn(s)) && sample == Take(all, n)
  }

  /** compute_stats */
  method ComputeStats(g: Graph) returns (s: Stats, outDegree: map<Vertex, nat>, inDegree: map<Vertex, nat>)
    ensures s.modules == |g| && s.edges == |Edges(g)| && s.leaves == |Leaves(g)| && s.roots == |Roots(g)|
    ensures s.average == Round2(|Edges(g)| as real / (if |g| > 1 then |g| else 1) as real)
    ensures outDegree.Keys == g.Keys && forall u :: u in g ==> outDegree[u] == |g[u]|
    ensures inDegree.Keys == Targets(g) && forall v :: Degree(inDegree, v) == |Preds(g, v)|
    ensures IsTop(s.importers, outDegree, 20) && IsTop(s.imported, inDegree, 20) && FirstNames(s.sample, Roots(g), 20)
  {
    hide DependedOn, Edges, Targets, Roots, Preds, Degree, IsTop, Sorted, Take, Nearest;
    outDegree, inDegree := CountDegrees(g);
    var edges := SumOut(g, outDegree);
    var importers := TopDegrees(outDegree, 20);
    var imported := TopDegrees(inDegree, 20);
    var leaves := set u | u in outDegree && outDegree[u] == 0;
    assert leaves == Leaves(g);
    var depended := CollectDependedOn(g);
    RootsAreNotDependedOn(g);
    var roots := g.Keys - depended;
    var names := SortedSet(NamesIn(roots));
    s := Stats(|g|, edges, Round2(edges as real / (if |g| > 1 then |g| else 1) as real), importers, imported,
               |leaves|, |roots|, Take(names, 20));
  }

  // ---- double counting ----

  function SumDegrees(listing: seq<Vertex>, d: map<Vertex, nat>): nat {
    if listing == [] then 0 else SumDegrees(listing[..|listing| - 1], d) + Degree(d, listing[|listing| - 1])
  }

  lemma {:induction false} SumInDegrees(g: Graph, inDegree: map<Vertex, nat>, listing: seq<Vertex>)
    requires forall v :: Degree(inDegree, v) == |Preds(g, v)|
    requires Distinct(listing)
    ensures SumDegrees(listing, inDegree) == |EdgesInto(g, Members(listing))|
  {
    if listing == [] {
      assert EdgesInto(g, Members(listing)) == {};
    } else {
      var t, v := listing[..|listing| - 1], listing[|listing| - 1];
      assert listing == t + [v];
      DistinctGrows(t, v);
      MembersGrow(t, v);
      SumInDegrees(g, inDegree, t);
      OneMoreTarget(g, Members(t), v);
    }
  }

  /** However they are listed, the in-degrees add up to the number of edges, as the out-degrees do. */
  lemma DoubleCounting(g: Graph, inDegree: map<Vertex, nat>, listing: seq<Vertex>)
    requires inDegree.Keys == Targets(g) && forall v :: Degree(inDegree, v) == |Preds(g, v)|
    requires Distinct(listing) && Members(listing) == inDegree.Keys
    ensures SumDegrees(listing, inDegree) == |Edges(g)|
  {
    SumInDegrees(g, inDegree, listing);
    assert EdgesInto(g, Targets(g)) == Edges(g);
  }

  // ---- acyclic graphs have ends ----

  // As build_dependency_graph leaves it: dependencies are modules of the graph, and none depends on itself.
  ghost predicate Internal(g: Graph) {
    forall u, v :: v in Succ(g, u) ==> v in g && v != u
  }

  ghost predicate Acyclic(g: Graph) {
    forall x, y {:trigger Mutual(g, x, y)} :: Mutual(g, x, y) ==> x == y
  }

  ghost function Beyond(g: Graph, x: Vertex): set<Vertex> {
    set y | y in g && Reach(g, x, y)
  }

  ghost function Behind(g: Graph, y: Vertex): set<Vertex> {
    set x | x in g && Reach(g, x, y)
  }

  lemma StepShrinks(g: Graph, x: Vertex, y: Vertex)
    requires Internal(g) && Acyclic(g) && y in Succ(g, x)
    ensures Beyond(g, y) < Beyond(g, x) && Behind(g, x) < Behind(g, y)
  {
    hide Reach;
    ReachEdge(g, x, y);
    ReachRefl(g, x);
    ReachRefl(g, y);
    assert Mutual(g, x, y) <==> Reach(g, y, x);
    forall z | Reach(g, y, z)
      ensures Reach(g, x, z)
    {
      ReachTrans(g, x, y, z);
    }
    forall z | Reach(g, z, x)
      ensures Reach(g, z, y)
    {
      ReachTrans(g, z, x, y);
    }
    assert x in Beyond(g, x) && x !in Beyond(g, y);
    assert y in Behind(g, y) && y !in Behind(g, x);
  }

  lemma {:induction false} LeafBeyond(g: Graph, x: Vertex)
    requires Internal(g) && Acyclic(g) && x in g
    ensures Leaves(g) != {}
    decreases Beyond(g, x)
  {
    if g[x] == {} {
      assert x in Leaves(g);
    } else {
      var y :| y in g[x];
      assert y in Succ(g, x);
      StepShrinks(g, x, y);
      LeafBeyond(g, y);
    }
  }

  lemma {:induction false} RootBehind(g: Graph, y: Vertex)
    requires Internal(g) && Acyclic(g) && y in g
    ensures Roots(g) != {}
    decreases Behind(g, y)
  {
    if Preds(g, y) == {} {
      assert y in Roots(g);
    } else {
      var x :| x in Preds(g, y);
      assert y in Succ(g, x);
      StepShrinks(g, x, y);
      RootBehind(g, x);
    }
  }

  /** A graph without cycles has a module that depends on nothing and one that nothing depends on. */
  lemma AcyclicHasEnds(g: Graph)
    requires Internal(g) && Acyclic(g) && g != map[]
    ensures |Leaves(g)| > 0 && |Roots(g)| > 0
  {
    var x :| x in g;
    LeafBeyond(g, x);
    RootBehind(g, x);
  }
}
