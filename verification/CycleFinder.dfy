/** find_cycles of the dependency analyser: Tarjan's algorithm over mutable tables. */
module CycleFinder {
  import opened Digraph
  import opened Lists
  import opened TarjanInvariant
  import opened Sorting

  function NameLe(): (Vertex, Vertex) -> bool {
    (a: Vertex, b: Vertex) => StrLe(a.name, b.name)
  }

  function LongerFirst(): (seq<Vertex>, seq<Vertex>) -> bool {
    (a: seq<Vertex>, b: seq<Vertex>) => |a| >= |b|
  }

  lemma NameLeOrder()
    ensures TotalPreorder(NameLe())
  {
    forall x, y
      ensures NameLe()(x, y) || NameLe()(y, x)
    {
      StrLeTotal(x.name, y.name);
    }
    forall x, y, z | NameLe()(x, y) && NameLe()(y, z)
      ensures NameLe()(x, z)
    {
      StrLeTransitive(x.name, y.name, z.name);
    }
  }

  // The vertices of c, each once, in name order.
  ghost predicate ListedInOrder(l: seq<Vertex>, c: set<Vertex>) {
    Members(l) == c && Distinct(l) && SortedBy(NameLe(), l)
  }

  // sccs holds the components with more than one vertex, listed, in the order they were popped.
  ghost predicate Reports(sccs: seq<seq<Vertex>>, cs: seq<set<Vertex>>) {
    if cs == [] then sccs == []
    else if |cs[|cs| - 1]| > 1 then
      sccs != [] && ListedInOrder(sccs[|sccs| - 1], cs[|cs| - 1]) && Reports(sccs[..|sccs| - 1], cs[..|cs| - 1])
    else Reports(sccs, cs[..|cs| - 1])
  }

  // Sorting what was popped lists the component.
  lemma SortedLists(l: seq<Vertex>)
    requires Distinct(l)
    ensures ListedInOrder(Sort(NameLe(), l), Members(l)) && |Members(l)| == |l|
  {
    NameLeOrder();
    SortSorts(NameLe(), l);
    SameMembers(l, Sort(NameLe(), l));
    DistinctPermutes(l, Sort(NameLe(), l));
    DistinctCount(l);
  }

  // on_stack mirrors the stack.
  ghost predicate Mirrors(onStack: map<Vertex, bool>, index: map<Vertex, nat>, stack: seq<Vertex>) {
    && onStack.Keys == index.Keys
    && (forall x :: x in onStack ==> (onStack[x] <==> x in stack))
  }

  ghost predicate SameExcept(a: map<Vertex, nat>, b: map<Vertex, nat>, v: Vertex) {
    a.Keys <= b.Keys && forall x :: x in a && x != v ==> b[x] == a[x]
  }

  class Finder {
    const graph: Graph
    var indexCounter: nat
    var stack: seq<Vertex>
    var lowlink: map<Vertex, nat>
    var index: map<Vertex, nat>
    var onStack: map<Vertex, bool>
    var sccs: seq<seq<Vertex>>
    ghost var active: set<Vertex>
    ghost var components: seq<set<Vertex>>

    constructor (g: Graph)
      ensures graph == g && Tables() && State() == Env(map[], 0, [], {}, [])
    {
      graph := g;
      indexCounter, stack, lowlink, index, onStack, sccs := 0, [], map[], map[], map[], [];
      active, components := {}, [];
    }

    ghost function State(): Env
      reads this
    {
      Env(index, indexCounter, stack, active, components)
    }

    // The tables outside the snapshot agree with it.
    ghost predicate Tables()
      reads this
    {
      && lowlink.Keys == index.Keys && Lows(graph, index, lowlink)
      && Mirrors(onStack, index, stack) && Reports(sccs, components)
    }

    lemma LowIsHeld(x: Vertex)
      requires Tables() && x in index
      ensures LowAt(graph, index, x, lowlink[x])
    {
    }

    method Enter(v: Vertex)
      requires Tables() && v !in index
      modifies this
      ensures Tables() && State() == Pushed(old(State()), v)
      ensures lowlink == old(lowlink)[v := old(indexCounter)]
    {
      hide Lows, Reports;
      LowsEnter(graph, index, lowlink, v, indexCounter);
      index := index[v := indexCounter];
      lowlink := lowlink[v := indexCounter];
      indexCounter := indexCounter + 1;
      stack := stack + [v];
      onStack := onStack[v := true];
      active := active + {v};
    }

    method StrongConnect(v: Vertex, ghost all: set<Vertex>)
      requires Tables() && Valid(graph, State())
      requires v !in index && v in all && Closed(graph, all)
      requires forall x :: x in active ==> Reach(graph, x, v)
      modifies this
      ensures Tables() && v in lowlink && Finished(graph, old(State()), State(), v, lowlink[v])
      ensures SameExcept(old(lowlink), lowlink, v)
      decreases all - index.Keys, 0
    {
      hide Valid, Finished, Looping, Grown, Mirrors, Reports, Lows;
      ghost var e0 := State();
      EnterLoop(graph, e0, v);
      Enter(v);
      ghost var e1 := State();
      GrownRefl(e1);
      var ws := Succ(graph, v);
      assert Succ(graph, v) - ws == {};
      while ws != {}
        invariant ws <= Succ(graph, v)
        invariant Tables() && v in lowlink
        invariant Looping(graph, State(), v, |e0.stack|, Succ(graph, v) - ws, lowlink[v])
        invariant Grown(e1, State())
        invariant SameExcept(old(lowlink), lowlink, v)
        decreases ws
      {
        var w :| w in ws;
        ghost var seen := Succ(graph, v) - ws;
        if w !in index {
          Explore(v, w, all, |e0.stack|, seen, e1);
        } else {
          Revisit(v, w, |e0.stack|, seen);
        }
        assert Succ(graph, v) - (ws - {w}) == seen + {w};
        ws := ws - {w};
      }
      assert Succ(graph, v) - ws == Succ(graph, v);
      Leave(v, e0);
    }

    // A successor without an index: explored by a recursive call.
    method Explore(v: Vertex, w: Vertex, ghost all: set<Vertex>, ghost k: nat, ghost seen: set<Vertex>, ghost e1: Env)
      requires Tables() && v in lowlink && w in Succ(graph, v) && Closed(graph, all) && v in all && w !in index
      requires Looping(graph, State(), v, k, seen, lowlink[v]) && Grown(e1, State())
      modifies this
      ensures Tables() && v in lowlink
      ensures Looping(graph, State(), v, k, seen + {w}, lowlink[v]) && Grown(e1, State())
      ensures SameExcept(old(lowlink), lowlink, v)
      decreases all - index.Keys, 1
    {
      hide Valid, Finished, Looping, Grown, Reports, Reach, Members, Lows, LowAt;
      ghost var e, low := State(), lowlink[v];
      LoopingFacts(graph, e, v, k, seen, low);
      forall x | x in active
        ensures Reach(graph, x, w)
      {
        ActiveReachesSuccessor(graph, e, v, k, seen, low, w, x);
      }
      StrongConnect(w, all);
      FinishedFacts(graph, e, State(), w, lowlink[w]);
      ExploredSuccessor(graph, e, State(), v, k, seen, low, w, lowlink[w]);
      GrownTrans(e1, e, State());
      LowIsHeld(w);
      LowsLower(graph, index, lowlink, v, w, lowlink[w]);
      lowlink := lowlink[v := Min(lowlink[v], lowlink[w])];
    }

    // A successor that has an index: its index counts if it is on the stack.
    method Revisit(v: Vertex, w: Vertex, ghost k: nat, ghost seen: set<Vertex>)
      requires Tables() && v in lowlink && w in Succ(graph, v) && w in index
      requires Looping(graph, State(), v, k, seen, lowlink[v])
      modifies this`lowlink
      ensures Tables() && v in lowlink
      ensures Looping(graph, State(), v, k, seen + {w}, lowlink[v])
      ensures SameExcept(old(lowlink), lowlink, v)
    {
      hide Valid, Looping, Reports, Reach, Members, Lows, LowAt;
      IndexedSuccessor(graph, State(), v, k, seen, lowlink[v], w);
      if onStack[w] {
        OwnIndex(graph, index, w);
        LowsLower(graph, index, lowlink, v, w, index[w]);
        lowlink := lowlink[v := Min(lowlink[v], index[w])];
      }
    }

    // After the loop: pop the component v is the root of, or leave v on the stack.
    method Leave(v: Vertex, ghost e0: Env)
      requires Tables() && v in lowlink
      requires Valid(graph, e0) && v !in e0.index && Grown(Pushed(e0, v), State())
      requires Looping(graph, State(), v, |e0.stack|, Succ(graph, v), lowlink[v])
      modifies this`stack, this`onStack, this`sccs, this`active, this`components
      ensures Tables() && Finished(graph, e0, State(), v, lowlink[v])
    {
      hide Valid, Finished, Looping, Grown, Reports, Reach, Lows;
      ghost var e, k := State(), |e0.stack|;
      LoopingFacts(graph, e, v, k, Succ(graph, v), lowlink[v]);
      if lowlink[v] == index[v] {
        LeavePopping(graph, e0, e, v, lowlink[v]);
        var scc := PopTo(v, k);
        Report(scc, Members(e.stack[k..]));
        active := active - {v};
        assert State() == Popped(e, v, k);
      } else {
        LeaveOpen(graph, e0, e, v, lowlink[v]);
        active := active - {v};
        assert State() == e.(active := e.active - {v});
      }
    }

    // The loop over the roots in name order.
    method Run()
      requires Tables() && State() == Env(map[], 0, [], {}, [])
      modifies this
      ensures stack == [] && graph.Keys <= index.Keys == lowlink.Keys && Lows(graph, index, lowlink)
      ensures Reports(sccs, components) && AllComponents(graph, components) && graph.Keys <= Union(components)
    {
      hide Valid, Finished, Grown, Mirrors, Reports, Reach, Lows;
      ghost var all := graph.Keys + (set v, w | v in graph && w in graph[v] :: w);
      var roots := SortedKeys(graph);
      EmptyIsValid(graph);
      for r := 0 to |roots|
        invariant Tables() && Valid(graph, State()) && active == {}
        invariant forall i :: 0 <= i < r ==> roots[i] in index
      {
        var v := roots[r];
        if v !in index {
          ghost var e := State();
          StrongConnect(v, all);
          FinishedFacts(graph, e, State(), v, lowlink[v]);
        }
      }
      IdleStackEmpty(graph, State());
    }

    method Report(scc: seq<Vertex>, ghost c: set<Vertex>)
      requires Distinct(scc) && Members(scc) == c && Reports(sccs, components)
      modifies this`sccs, this`components
      ensures components == old(components) + [c] && Reports(sccs, components)
    {
      SortedLists(scc);
      if |scc| > 1 {
        sccs := sccs + [Sort(NameLe(), scc)];
        assert sccs[..|sccs| - 1] == old(sccs);
      }
      components := components + [c];
      assert components[..|components| - 1] == old(components);
    }

    // The popping loop: takes everything from v up off the stack.
    method PopTo(v: Vertex, ghost k: nat) returns (scc: seq<Vertex>)
      requires Mirrors(onStack, index, stack) && Distinct(stack) && Members(stack) <= index.Keys
      requires k < |stack| && stack[k] == v
      modifies this`stack, this`onStack
      ensures stack == old(stack)[..k] && Mirrors(onStack, index, stack)
      ensures Distinct(scc) && Members(scc) == Members(old(stack)[k..])
    {
      scc := [];
      ghost var s := stack;
      while true
        invariant k < |stack| <= |s| && stack == s[..|stack|]
        invariant Mirrors(onStack, index, stack)
        invariant |scc| == |s| - |stack| && forall i :: 0 <= i < |scc| ==> scc[i] == s[|s| - 1 - i]
        decreases |stack|
      {
        var w := stack[|stack| - 1];
        stack := stack[..|stack| - 1];
        onStack := onStack[w := false];
        scc := scc + [w];
        if w == v {
          break;
        }
      }
      assert |stack| == k;
      forall x | x in s[k..]
        ensures x in scc
      {
        var i :| k <= i < |s| && s[i] == x;
        assert scc[|s| - 1 - i] == x;
      }
      forall x | x in scc
        ensures x in s[k..]
      {
        var i :| 0 <= i < |scc| && scc[i] == x;
        assert s[k..][|s| - 1 - i - k] == x;
      }
    }
  }

  // ---- from the popped components to the reported cycles ----

  // A list reports c when it names exactly the vertices of c.
  ghost predicate Reported(cycles: seq<seq<Vertex>>, c: set<Vertex>) {
    exists i :: 0 <= i < |cycles| && Members(cycles[i]) == c
  }

  lemma {:induction false} InUnion(cs: seq<set<Vertex>>, x: Vertex) returns (c: set<Vertex>)
    requires x in Union(cs)
    ensures c in cs && x in c
  {
    if x in cs[|cs| - 1] {
      c := cs[|cs| - 1];
    } else {
      c := InUnion(cs[..|cs| - 1], x);
    }
  }

  lemma {:induction false} PartOfUnion(cs: seq<set<Vertex>>, c: set<Vertex>)
    requires c in cs
    ensures c <= Union(cs)
  {
    if c != cs[|cs| - 1] {
      PartOfUnion(cs[..|cs| - 1], c);
    }
  }

  lemma {:induction false} AllAreComponents(g: Graph, cs: seq<set<Vertex>>, c: set<Vertex>)
    requires AllComponents(g, cs) && c in cs
    ensures IsComponent(g, c)
  {
    if c != cs[|cs| - 1] {
      AllAreComponents(g, cs[..|cs| - 1], c);
    }
  }

  // Every report lists a large component in order.
  lemma {:induction false} ReportsSound(sccs: seq<seq<Vertex>>, cs: seq<set<Vertex>>, i: nat)
    requires Reports(sccs, cs) && i < |sccs|
    ensures Members(sccs[i]) in cs && |Members(sccs[i])| > 1 && ListedInOrder(sccs[i], Members(sccs[i]))
  {
    hide ListedInOrder;
    var rest := cs[..|cs| - 1];
    if |cs[|cs| - 1]| <= 1 {
      ReportsSound(sccs, rest, i);
    } else if i < |sccs| - 1 {
      ReportsSound(sccs[..|sccs| - 1], rest, i);
    } else {
      assert ListedInOrder(sccs[i], cs[|cs| - 1]);
      ListsElements(sccs[i], cs[|cs| - 1]);
    }
  }

  lemma ListsElements(l: seq<Vertex>, c: set<Vertex>)
    requires ListedInOrder(l, c)
    ensures Members(l) == c && |l| == |c|
  {
    DistinctCount(l);
  }

  // Reports do not overlap.
  lemma {:induction false} ReportsDisjoint(g: Graph, sccs: seq<seq<Vertex>>, cs: seq<set<Vertex>>, i: nat, j: nat)
    requires Reports(sccs, cs) && AllComponents(g, cs) && i < j < |sccs|
    ensures Members(sccs[i]) !! Members(sccs[j])
  {
    hide ListedInOrder, IsComponent;
    var rest, c := cs[..|cs| - 1], cs[|cs| - 1];
    if |c| <= 1 {
      ReportsDisjoint(g, sccs, rest, i, j);
    } else if j < |sccs| - 1 {
      ReportsDisjoint(g, sccs[..|sccs| - 1], rest, i, j);
    } else {
      ReportsSound(sccs[..|sccs| - 1], rest, i);
      PartOfUnion(rest, Members(sccs[i]));
      ListsElements(sccs[j], c);
    }
  }

  lemma {:induction false} ReportsComplete(sccs: seq<seq<Vertex>>, cs: seq<set<Vertex>>, c: set<Vertex>)
    requires Reports(sccs, cs) && c in cs && |c| > 1
    ensures Reported(sccs, c)
  {
    var rest, last := cs[..|cs| - 1], cs[|cs| - 1];
    if c == last {
      assert Members(sccs[|sccs| - 1]) == c;
    } else if |last| > 1 {
      ReportsComplete(sccs[..|sccs| - 1], rest, c);
      var i :| 0 <= i < |sccs| - 1 && Members(sccs[..|sccs| - 1][i]) == c;
      assert Members(sccs[i]) == c;
    } else {
      ReportsComplete(sccs, rest, c);
    }
  }

  // Two components with a common vertex are the same.
  lemma ComponentsMeet(g: Graph, c: set<Vertex>, d: set<Vertex>, x: Vertex)
    requires IsComponent(g, c) && IsComponent(g, d) && x in c && x in d
    ensures c == d
  {
    forall y
      ensures y in c <==> y in d
    {
      assert y in c <==> Mutual(g, x, y);
      assert y in d <==> Mutual(g, x, y);
    }
  }

  // A component with more than one vertex lies inside the graph's keys.
  lemma LargeComponentOfKeys(g: Graph, c: set<Vertex>)
    requires IsComponent(g, c) && |c| > 1
    ensures c <= g.Keys
  {
    forall x | x in c
      ensures x in g
    {
      assert |c - {x}| == |c| - 1;
      var y :| y in c - {x};
      assert Mutual(g, x, y);
      ReachFromKey(g, x, y);
    }
  }

  lemma ReportsEveryComponent(g: Graph, sccs: seq<seq<Vertex>>, cs: seq<set<Vertex>>, c: set<Vertex>)
    requires Reports(sccs, cs) && AllComponents(g, cs) && g.Keys <= Union(cs)
    requires IsComponent(g, c) && |c| > 1
    ensures Reported(sccs, c)
  {
    LargeComponentOfKeys(g, c);
    var x :| x in c;
    var d := InUnion(cs, x);
    AllAreComponents(g, cs, d);
    ComponentsMeet(g, c, d, x);
    ReportsComplete(sccs, cs, c);
  }

  // What find_cycles promises about its result.
  ghost predicate ReportsCycles(g: Graph, cycles: seq<seq<Vertex>>) {
    // exactly the classes of mutually reachable vertices with more than one member,
    && (forall c: set<Vertex> :: (IsComponent(g, c) && |c| > 1) <==> Reported(cycles, c))
    // no two reports sharing a vertex,
    && (forall i, j :: 0 <= i < j < |cycles| ==> Members(cycles[i]) !! Members(cycles[j]))
    // each report in name order without repetition
    && (forall i :: 0 <= i < |cycles| ==> Distinct(cycles[i]) && SortedBy(NameLe(), cycles[i]))
  }

  lemma PoppedReportCycles(g: Graph, sccs: seq<seq<Vertex>>, cs: seq<set<Vertex>>)
    requires Reports(sccs, cs) && AllComponents(g, cs) && g.Keys <= Union(cs)
    ensures ReportsCycles(g, sccs)
  {
    hide Reports, AllComponents, IsComponent;
    forall c: set<Vertex>
      ensures (IsComponent(g, c) && |c| > 1) <==> Reported(sccs, c)
    {
      if Reported(sccs, c) {
        var i :| 0 <= i < |sccs| && Members(sccs[i]) == c;
        ReportsSound(sccs, cs, i);
        AllAreComponents(g, cs, c);
      } else if IsComponent(g, c) && |c| > 1 {
        ReportsEveryComponent(g, sccs, cs, c);
      }
    }
    forall i | 0 <= i < |sccs|
      ensures Distinct(sccs[i]) && SortedBy(NameLe(), sccs[i])
    {
      ReportsSound(sccs, cs, i);
    }
    forall i, j | 0 <= i < j < |sccs|
      ensures Members(sccs[i]) !! Members(sccs[j])
    {
      ReportsDisjoint(g, sccs, cs, i, j);
    }
  }

  lemma ReportedPermutes(a: seq<seq<Vertex>>, b: seq<seq<Vertex>>, c: set<Vertex>)
    requires multiset(a) == multiset(b) && Reported(a, c)
    ensures Reported(b, c)
  {
    SameMembers(a, b);
    var i :| 0 <= i < |a| && Members(a[i]) == c;
    assert a[i] in b;
  }

  lemma DisjointPermutes(g: Graph, a: seq<seq<Vertex>>, b: seq<seq<Vertex>>, i: nat, j: nat)
    requires multiset(a) == multiset(b) && i < j < |b|
    requires forall m, n :: 0 <= m < n < |a| ==> Members(a[m]) !! Members(a[n])
    requires forall m :: 0 <= m < |a| ==> Members(a[m]) != {}
    ensures Members(b[i]) !! Members(b[j])
  {
    SameMembers(a, b);
    assert Distinct(a);
    DistinctPermutes(a, b);
    assert b[i] in b && b[j] in b;
    var m :| 0 <= m < |a| && a[m] == b[i];
    var n :| 0 <= n < |a| && a[n] == b[j];
    assert m < n || n < m;
  }

  lemma ReportsCyclesPermutes(g: Graph, a: seq<seq<Vertex>>, b: seq<seq<Vertex>>)
    requires ReportsCycles(g, a) && multiset(a) == multiset(b)
    ensures ReportsCycles(g, b)
  {
    hide IsComponent;
    SameMembers(a, b);
    forall c: set<Vertex>
      ensures Reported(a, c) <==> Reported(b, c)
    {
      if Reported(a, c) {
        ReportedPermutes(a, b, c);
      }
      if Reported(b, c) {
        ReportedPermutes(b, a, c);
      }
    }
    forall m | 0 <= m < |a|
      ensures Members(a[m]) != {}
    {
      assert Reported(a, Members(a[m]));
    }
    forall i, j | 0 <= i < j < |b|
      ensures Members(b[i]) !! Members(b[j])
    {
      DisjointPermutes(g, a, b, i, j);
    }
    forall i | 0 <= i < |b|
      ensures Distinct(b[i]) && SortedBy(NameLe(), b[i])
    {
      assert b[i] in a;
    }
  }

  // The component of x, when x and another vertex reach each other.
  lemma MutualClass(g: Graph, x: Vertex, y: Vertex) returns (c: set<Vertex>)
    requires Mutual(g, x, y) && x != y
    ensures IsComponent(g, c) && |c| > 1 && x in c
  {
    c := set z | z in g && Mutual(g, x, z);
    ReachFromKey(g, x, y);
    ReachFromKey(g, y, x);
    ReachRefl(g, x);
    assert {x, y} <= c;
    assert |c - {x, y}| == |c| - 2;
    forall u, z | u in c
      ensures z in c <==> Mutual(g, u, z)
    {
      if z in c {
        ReachTrans(g, u, x, z);
        ReachTrans(g, z, x, u);
      } else if Mutual(g, u, z) {
        ReachTrans(g, x, u, z);
        ReachTrans(g, z, u, x);
        assert z != x;
        ReachFromKey(g, z, x);
      }
    }
  }

  lemma CycleIsReported(g: Graph, cycles: seq<seq<Vertex>>, x: Vertex, y: Vertex)
    requires ReportsCycles(g, cycles) && Mutual(g, x, y) && x != y
    ensures cycles != []
  {
    var c := MutualClass(g, x, y);
    assert Reported(cycles, c);
  }

  // No cycle is reported exactly when no two distinct vertices reach each other.
  lemma NoCyclesMeansAcyclic(g: Graph, cycles: seq<seq<Vertex>>)
    requires ReportsCycles(g, cycles)
    ensures cycles == [] <==> forall x, y :: Mutual(g, x, y) ==> x == y
  {
    if cycles != [] {
      var c := Members(cycles[0]);
      assert Reported(cycles, c);
      var x :| x in c;
      assert |c - {x}| == |c| - 1;
      var y :| y in c - {x};
      assert Mutual(g, x, y);
    } else if exists x, y :: Mutual(g, x, y) && x != y {
      var x, y :| Mutual(g, x, y) && x != y;
      CycleIsReported(g, cycles, x, y);
    }
  }

  lemma LargerCyclesFirst(cycles: seq<seq<Vertex>>)
    requires SortedBy(LongerFirst(), cycles)
    ensures forall i, j :: 0 <= i < j < |cycles| ==> |cycles[i]| >= |cycles[j]|
  {
    forall i, j | 0 <= i < j < |cycles|
      ensures |cycles[i]| >= |cycles[j]|
    {
      assert LongerFirst()(cycles[i], cycles[j]);
    }
  }

  lemma NamesAscend(g: Graph, cycles: seq<seq<Vertex>>, c: seq<Vertex>, i: nat, j: nat)
    requires ReportsCycles(g, cycles) && c in cycles && i < j < |c|
    ensures var a, b := c[i].name, c[j].name;
            a <= b || exists k :: 0 <= k < |a| && k < |b| && a[..k] == b[..k] && a[k] < b[k]
  {
    hide StrLe, IsComponent, Reported;
    var n :| 0 <= n < |cycles| && cycles[n] == c;
    assert SortedBy(NameLe(), c);
    assert NameLe()(c[i], c[j]);
    StrLeAtFirstDifference(c[i].name, c[j].name);
  }

  // The keys of the graph in name order.
  method SortedKeys(g: Graph) returns (keys: seq<Vertex>)
    ensures Members(keys) == g.Keys && SortedBy(NameLe(), keys)
  {
    keys := [];
    var rest := g.Keys;
    while rest != {}
      invariant rest <= g.Keys && Members(keys) == g.Keys - rest
    {
      var k :| k in rest;
      assert Members(keys + [k]) == Members(keys) + {k};
      keys, rest := keys + [k], rest - {k};
    }
    NameLeOrder();
    SortSorts(NameLe(), keys);
    SameMembers(keys, Sort(NameLe(), keys));
    assert Members(Sort(NameLe(), keys)) == Members(keys);
    keys := Sort(NameLe(), keys);
  }

  /** find_cycles: all cycles of the graph, larger ones first. */
  method FindCycles(g: Graph) returns (cycles: seq<seq<Vertex>>)
    ensures ReportsCycles(g, cycles)
    // Larger cycles come first, and names ascend within a cycle.
    ensures forall i, j :: 0 <= i < j < |cycles| ==> |cycles[i]| >= |cycles[j]|
    ensures forall c: seq<Vertex>, i, j :: c in cycles && 0 <= i < j < |c| ==>
              var a, b := c[i].name, c[j].name;
              a <= b || exists k :: 0 <= k < |a| && k < |b| && a[..k] == b[..k] && a[k] < b[k]
    ensures cycles == [] <==> forall x, y :: Mutual(g, x, y) ==> x == y
  {
    hide Valid, Reports, ReportsCycles;
    var finder := new Finder(g);
    finder.Run();
    PoppedReportCycles(g, finder.sccs, finder.components);
    cycles := Sort(LongerFirst(), finder.sccs);
    SortSorts(LongerFirst(), finder.sccs);
    ReportsCyclesPermutes(g, finder.sccs, cycles);
    NoCyclesMeansAcyclic(g, cycles);
    LargerCyclesFirst(cycles);
    forall c: seq<Vertex>, i, j | c in cycles && 0 <= i < j < |c|
      ensures var a, b := c[i].name, c[j].name;
              a <= b || exists k :: 0 <= k < |a| && k < |b| && a[..k] == b[..k] && a[k] < b[k]
    {
      NamesAscend(g, cycles, c, i, j);
    }
  }
}
