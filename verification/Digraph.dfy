/** Module-dependency graphs and reachability in them. */
module Digraph {

  datatype Vertex = Vertex(name: string)

  // A dependency graph as the analyser builds it: a vertex that is not a key has no successors.
  type Graph = map<Vertex, set<Vertex>>

  function Succ(g: Graph, v: Vertex): set<Vertex> {
    if v in g then g[v] else {}
  }

  // The vertices `via` lead, edge by edge, from x to y.
  ghost predicate Walk(g: Graph, x: Vertex, via: seq<Vertex>, y: Vertex)
    decreases via
  {
    if via == [] then x == y else via[0] in Succ(g, x) && Walk(g, via[0], via[1..], y)
  }

  ghost predicate Reach(g: Graph, x: Vertex, y: Vertex) {
    exists via :: Walk(g, x, via, y)
  }

  ghost predicate Mutual(g: Graph, x: Vertex, y: Vertex) {
    Reach(g, x, y) && Reach(g, y, x)
  }

  // A strongly connected component: a class of the mutual-reachability relation.
  ghost predicate IsComponent(g: Graph, c: set<Vertex>) {
    c != {} && forall x, y {:trigger Mutual(g, x, y)} :: x in c ==> (y in c <==> Mutual(g, x, y))
  }

  ghost predicate Closed(g: Graph, s: set<Vertex>) {
    forall x, y :: x in s && y in Succ(g, x) ==> y in s
  }

  lemma ReachRefl(g: Graph, x: Vertex)
    ensures Reach(g, x, x)
  {
    assert Walk(g, x, [], x);
  }

  lemma ReachEdge(g: Graph, x: Vertex, y: Vertex)
    requires y in Succ(g, x)
    ensures Reach(g, x, y)
  {
    assert Walk(g, x, [y], y);
  }

  lemma {:induction false} WalkAppend(g: Graph, x: Vertex, p: seq<Vertex>, y: Vertex, q: seq<Vertex>, z: Vertex)
    requires Walk(g, x, p, y) && Walk(g, y, q, z)
    ensures Walk(g, x, p + q, z)
    decreases p
  {
    if p == [] {
      assert p + q == q;
    } else {
      WalkAppend(g, p[0], p[1..], y, q, z);
      assert (p + q)[1..] == p[1..] + q;
    }
  }

  lemma ReachTrans(g: Graph, x: Vertex, y: Vertex, z: Vertex)
    requires Reach(g, x, y) && Reach(g, y, z)
    ensures Reach(g, x, z)
  {
    var p :| Walk(g, x, p, y);
    var q :| Walk(g, y, q, z);
    WalkAppend(g, x, p, y, q, z);
  }

  lemma {:induction false} WalkStaysClosed(g: Graph, s: set<Vertex>, x: Vertex, via: seq<Vertex>, y: Vertex)
    requires Closed(g, s) && x in s && Walk(g, x, via, y)
    ensures y in s
    decreases via
  {
    if via != [] {
      WalkStaysClosed(g, s, via[0], via[1..], y);
    }
  }

  // Reachability never leaves a closed set.
  lemma ClosedReach(g: Graph, s: set<Vertex>, x: Vertex, y: Vertex)
    requires Closed(g, s) && x in s && Reach(g, x, y)
    ensures y in s
  {
    var via :| Walk(g, x, via, y);
    WalkStaysClosed(g, s, x, via, y);
  }

  // A vertex that reaches another one has an edge, so it is a key of the graph.
  lemma ReachFromKey(g: Graph, x: Vertex, y: Vertex)
    requires Reach(g, x, y) && x != y
    ensures x in g
  {
    var via :| Walk(g, x, via, y);
  }
}
