/** The working invariant of the cycle finder, on snapshots of its mutable state. */
module TarjanInvariant {
  import opened Digraph
  import opened Lists

  // The state find_cycles shares with strongconnect, plus two ghost parts: the vertices whose call
  // is still active, and every component popped so far (singletons included), in order.
  datatype Env = Env(
    index: map<Vertex, nat>,
    counter: nat,
    stack: seq<Vertex>,
    active: set<Vertex>,
    components: seq<set<Vertex>>)

  ghost function Done(e: Env): set<Vertex> {
    e.index.Keys - Members(e.stack)
  }

  ghost predicate Shape(e: Env) {
    && e.active <= Members(e.stack) <= e.index.Keys
    && (forall i, j :: 0 <= i < j < |e.stack| ==> e.index[e.stack[i]] < e.index[e.stack[j]])
    && (forall x :: x in e.index ==> e.index[x] < e.counter)
  }

  // A vertex whose call has returned has only indexed successors.
  ghost predicate ReturnedIsExplored(g: Graph, e: Env) {
    forall x :: x in e.index && x !in e.active ==> Succ(g, x) <= e.index.Keys
  }

  // An active vertex reaches everything above it on the stack.
  ghost predicate ActiveReachesUp(g: Graph, e: Env)
    requires Shape(e)
  {
    forall x, y {:trigger Reach(g, x, y)} ::
      x in e.active && y in Members(e.stack) && e.index[x] <= e.index[y] ==> Reach(g, x, y)
  }

  ghost predicate Anchored(g: Graph, e: Env, y: Vertex)
    requires Shape(e) && y in e.index
  {
    exists x :: x in e.active && e.index[x] <= e.index[y] && Reach(g, y, x)
  }

  // Everything on the stack reaches an active vertex at or below it.
  ghost predicate StackReachesActive(g: Graph, e: Env)
    requires Shape(e)
  {
    forall y {:trigger Anchored(g, e, y)} :: y in Members(e.stack) ==> Anchored(g, e, y)
  }

  ghost function Union(cs: seq<set<Vertex>>): set<Vertex> {
    if cs == [] then {} else Union(cs[..|cs| - 1]) + cs[|cs| - 1]
  }

  // Pairwise disjoint components, each a whole class of mutual reachability.
  ghost predicate AllComponents(g: Graph, cs: seq<set<Vertex>>) {
    cs == [] ||
    (var rest, c := cs[..|cs| - 1], cs[|cs| - 1];
     AllComponents(g, rest) && IsComponent(g, c) && c !! Union(rest))
  }

  ghost predicate Valid(g: Graph, e: Env) {
    && Shape(e)
    && ReturnedIsExplored(g, e)
    && ActiveReachesUp(g, e)
    && StackReachesActive(g, e)
    && Closed(g, Done(e))
    && AllComponents(g, e.components)
    && Union(e.components) == Done(e)
  }

  ghost function Pushed(e: Env, v: Vertex): Env {
    e.(index := e.index[v := e.counter], counter := e.counter + 1, stack := e.stack + [v], active := e.active + {v})
  }

  ghost function Popped(e: Env, v: Vertex, k: nat): Env
    requires k < |e.stack|
  {
    e.(stack := e.stack[..k], active := e.active - {v}, components := e.components + [Members(e.stack[k..])])
  }

  lemma PushKeepsShape(e: Env, v: Vertex)
    requires Shape(e) && v !in e.index
    ensures Shape(Pushed(e, v)) && Members(Pushed(e, v).stack) == Members(e.stack) + {v}
    ensures Done(Pushed(e, v)) == Done(e)
  {
    assert Members(Pushed(e, v).stack) == Members(e.stack) + {v};
  }

  lemma PushKeepsAnchored(g: Graph, e: Env, v: Vertex, y: Vertex)
    requires Shape(e) && v !in e.index && y in e.index && Anchored(g, e, y)
    requires Shape(Pushed(e, v))
    ensures Anchored(g, Pushed(e, v), y)
  {
    var x :| x in e.active && e.index[x] <= e.index[y] && Reach(g, y, x);
    assert x in Pushed(e, v).active;
  }

  lemma PushKeepsAllAnchored(g: Graph, e: Env, v: Vertex)
    requires Shape(e) && StackReachesActive(g, e) && v !in e.index && Shape(Pushed(e, v))
    ensures StackReachesActive(g, Pushed(e, v))
  {
    var e' := Pushed(e, v);
    ReachRefl(g, v);
    forall y | y in Members(e'.stack)
      ensures Anchored(g, e', y)
    {
      if y == v {
        assert v in e'.active;
      } else {
        assert Anchored(g, e, y);
        PushKeepsAnchored(g, e, v, y);
      }
    }
  }

  lemma PushKeepsReach(g: Graph, e: Env, v: Vertex)
    requires Shape(e) && ActiveReachesUp(g, e) && v !in e.index && Shape(Pushed(e, v))
    requires forall x :: x in e.active ==> Reach(g, x, v)
    ensures ActiveReachesUp(g, Pushed(e, v))
  {
    ReachRefl(g, v);
  }

  lemma PushKeepsValid(g: Graph, e: Env, v: Vertex)
    requires Valid(g, e) && v !in e.index
    requires forall x :: x in e.active ==> Reach(g, x, v)
    ensures Valid(g, Pushed(e, v))
  {
    PushKeepsShape(e, v);
    PushKeepsAllAnchored(g, e, v);
    PushKeepsReach(g, e, v);
  }

  // What strongconnect(v) knows once its loop over successors is over: v sits at position k, is the
  // only active vertex from there up, and all its successors are indexed.
  ghost predicate LoopOver(g: Graph, e: Env, v: Vertex, k: nat) {
    && Valid(g, e)
    && k < |e.stack| && e.stack[k] == v && v in e.active
    && (forall i :: k < i < |e.stack| ==> e.stack[i] !in e.active)
    && Succ(g, v) <= e.index.Keys
  }

  lemma TopAboveRoot(e: Env, v: Vertex, k: nat, x: Vertex)
    requires Shape(e) && k < |e.stack| && e.stack[k] == v && x in e.stack[k..]
    ensures e.index[v] <= e.index[x]
  {
    var i :| k <= i < |e.stack| && e.stack[i] == x;
  }

  lemma ActiveBelowRoot(g: Graph, e: Env, v: Vertex, k: nat, a: Vertex)
    requires LoopOver(g, e, v, k) && a in e.active
    ensures e.index[a] <= e.index[v]
  {
    assert a in Members(e.stack);
    var i :| 0 <= i < |e.stack| && e.stack[i] == a;
  }

  // Everything from v upwards reaches v.
  lemma TopReachesRoot(g: Graph, e: Env, v: Vertex, k: nat, x: Vertex)
    requires LoopOver(g, e, v, k) && x in e.stack[k..]
    ensures Reach(g, x, v)
  {
    assert Anchored(g, e, x);
    var a :| a in e.active && e.index[a] <= e.index[x] && Reach(g, x, a);
    ActiveBelowRoot(g, e, v, k, a);
    assert Reach(g, a, v);
    ReachTrans(g, x, a, v);
  }

  // Some vertex active below v is reached from v, through the lowlink witness y.
  lemma ActiveBelow(g: Graph, e: Env, v: Vertex, k: nat, y: Vertex) returns (a: Vertex)
    requires LoopOver(g, e, v, k)
    requires y in Members(e.stack) && e.index[y] < e.index[v] && Reach(g, v, y)
    ensures a in e.active && e.index[a] < e.index[v] && Reach(g, v, a)
  {
    assert Anchored(g, e, y);
    a :| a in e.active && e.index[a] <= e.index[y] && Reach(g, y, a);
    ReachTrans(g, v, y, a);
  }

  lemma StillAnchored(g: Graph, e: Env, v: Vertex, k: nat, a: Vertex, x: Vertex)
    requires LoopOver(g, e, v, k) && x in Members(e.stack)
    requires a in e.active && e.index[a] < e.index[v] && Reach(g, v, a)
    ensures exists b :: b in e.active && b != v && e.index[b] <= e.index[x] && Reach(g, x, b)
  {
    var i :| 0 <= i < |e.stack| && e.stack[i] == x;
    if i < k {
      assert Anchored(g, e, x);
    } else {
      assert x in e.stack[k..];
      TopReachesRoot(g, e, v, k, x);
      ReachTrans(g, x, v, a);
    }
  }

  lemma ReturnKeepsAnchored(g: Graph, e: Env, v: Vertex, k: nat, y: Vertex)
    requires LoopOver(g, e, v, k)
    requires y in Members(e.stack) && e.index[y] < e.index[v] && Reach(g, v, y)
    ensures StackReachesActive(g, e.(active := e.active - {v}))
  {
    var a := ActiveBelow(g, e, v, k, y);
    forall x | x in Members(e.stack)
      ensures Anchored(g, e.(active := e.active - {v}), x)
    {
      StillAnchored(g, e, v, k, a, x);
    }
  }

  // Returning with lowlink[v] < index[v]: the vertices from v up stay on the stack.
  lemma ReturnKeepsValid(g: Graph, e: Env, v: Vertex, k: nat, y: Vertex)
    requires LoopOver(g, e, v, k)
    requires y in Members(e.stack) && e.index[y] < e.index[v] && Reach(g, v, y)
    ensures Valid(g, e.(active := e.active - {v}))
  {
    ReturnKeepsAnchored(g, e, v, k, y);
  }

  // No edge leaves the part of the stack from position k up for the part below.
  ghost predicate NoEdgeBelow(g: Graph, e: Env, k: nat)
    requires k < |e.stack|
  {
    forall x, y :: x in e.stack[k..] && y in e.stack[..k] ==> y !in Succ(g, x)
  }

  lemma StackSplit(e: Env, k: nat)
    requires Shape(e) && k < |e.stack|
    ensures Members(e.stack) == Members(e.stack[..k]) + Members(e.stack[k..])
    ensures Members(e.stack[..k]) !! Members(e.stack[k..])
  {
    assert e.stack == e.stack[..k] + e.stack[k..];
  }

  lemma DoneAndTopClosed(g: Graph, e: Env, v: Vertex, k: nat)
    requires LoopOver(g, e, v, k) && NoEdgeBelow(g, e, k)
    ensures Closed(g, Done(e) + Members(e.stack[k..]))
  {
    StackSplit(e, k);
    forall x, y | x in e.stack[k..] && y in Succ(g, x)
      ensures y in Done(e) + Members(e.stack[k..])
    {
      var i :| k <= i < |e.stack| && e.stack[i] == x;
      assert y in e.index;
    }
  }

  lemma TopIsComponent(g: Graph, e: Env, v: Vertex, k: nat)
    requires LoopOver(g, e, v, k) && NoEdgeBelow(g, e, k)
    ensures IsComponent(g, Members(e.stack[k..]))
  {
    var c := Members(e.stack[k..]);
    assert v in c by { assert e.stack[k..][0] == v; }
    StackSplit(e, k);
    DoneAndTopClosed(g, e, v, k);
    forall x, y | x in c
      ensures y in c <==> Mutual(g, x, y)
    {
      TopReachesRoot(g, e, v, k, x);
      if y in c {
        TopReachesRoot(g, e, v, k, y);
        TopAboveRoot(e, v, k, x);
        TopAboveRoot(e, v, k, y);
        ReachTrans(g, x, v, y);
        ReachTrans(g, y, v, x);
      } else if Mutual(g, x, y) {
        ClosedReach(g, Done(e) + c, x, y);
        ClosedReach(g, Done(e), y, x);
      }
    }
  }

  lemma PopKeepsShape(g: Graph, e: Env, v: Vertex, k: nat)
    requires LoopOver(g, e, v, k)
    ensures Shape(Popped(e, v, k))
  {
    hide Reach, Closed, AllComponents, Union, ActiveReachesUp, StackReachesActive, ReturnedIsExplored;
    StackSplit(e, k);
    var e' := Popped(e, v, k);
    forall x | x in e'.active
      ensures x in Members(e'.stack)
    {
      var i :| 0 <= i < |e.stack| && e.stack[i] == x;
      assert i < k;
    }
  }

  lemma PopKeepsAnchored(g: Graph, e: Env, v: Vertex, k: nat)
    requires LoopOver(g, e, v, k) && Shape(Popped(e, v, k))
    ensures StackReachesActive(g, Popped(e, v, k))
  {
    hide Reach, Closed, AllComponents, Union, ActiveReachesUp, ReturnedIsExplored, Anchored;
    var e' := Popped(e, v, k);
    forall y | y in Members(e'.stack)
      ensures Anchored(g, e', y)
    {
      var i :| 0 <= i < k && e.stack[i] == y;
      assert y in Members(e.stack) && e.index[y] < e.index[v];
      PopKeepsAnchor(g, e, v, k, y);
    }
  }

  // What anchors a vertex below v is not v itself.
  lemma PopKeepsAnchor(g: Graph, e: Env, v: Vertex, k: nat, y: Vertex)
    requires Shape(e) && k < |e.stack| && Shape(Popped(e, v, k))
    requires y in e.index && v in e.index && e.index[y] < e.index[v] && Anchored(g, e, y)
    ensures Anchored(g, Popped(e, v, k), y)
  {
    hide Reach, Shape;
  }

  // Returning with lowlink[v] == index[v]: the vertices from v up are one whole component.
  lemma PopKeepsValid(g: Graph, e: Env, v: Vertex, k: nat)
    requires LoopOver(g, e, v, k) && NoEdgeBelow(g, e, k)
    ensures Valid(g, Popped(e, v, k))
  {
    var c := Members(e.stack[k..]);
    var e' := Popped(e, v, k);
    StackSplit(e, k);
    TopIsComponent(g, e, v, k);
    DoneAndTopClosed(g, e, v, k);
    assert Done(e') == Done(e) + c;
    PopKeepsShape(g, e, v, k);
    PopKeepsAnchored(g, e, v, k);
    assert e'.components[..|e.components|] == e.components;
  }

  // ---- lowlink: what every indexed vertex keeps ----

  // The number low is no greater than x's index and is the index of a vertex x reaches.
  ghost predicate LowAt(g: Graph, index: map<Vertex, nat>, x: Vertex, low: nat)
    requires x in index
  {
    low <= index[x] && exists y :: y in index && index[y] == low && Reach(g, x, y)
  }

  ghost predicate Lows(g: Graph, index: map<Vertex, nat>, lowlink: map<Vertex, nat>)
    requires lowlink.Keys == index.Keys
  {
    forall x {:trigger LowAt(g, index, x, lowlink[x])} :: x in index ==> LowAt(g, index, x, lowlink[x])
  }

  lemma OwnIndex(g: Graph, index: map<Vertex, nat>, x: Vertex)
    requires x in index
    ensures LowAt(g, index, x, index[x])
  {
    ReachRefl(g, x);
  }

  lemma LowsEnter(g: Graph, index: map<Vertex, nat>, lowlink: map<Vertex, nat>, v: Vertex, n: nat)
    requires lowlink.Keys == index.Keys && Lows(g, index, lowlink) && v !in index
    ensures Lows(g, index[v := n], lowlink[v := n])
  {
    hide Reach;
    var index', lowlink' := index[v := n], lowlink[v := n];
    OwnIndex(g, index', v);
    forall x | x in index' && x != v
      ensures LowAt(g, index', x, lowlink'[x])
    {
      assert LowAt(g, index, x, lowlink[x]);
      var y :| y in index && index[y] == lowlink[x] && Reach(g, x, y);
      assert y in index' && index'[y] == lowlink[x];
    }
  }

  // The minimum with what a successor offers.
  lemma LowsLower(g: Graph, index: map<Vertex, nat>, lowlink: map<Vertex, nat>, v: Vertex, w: Vertex, low: nat)
    requires lowlink.Keys == index.Keys && Lows(g, index, lowlink) && v in index && w in index && w in Succ(g, v)
             && LowAt(g, index, w, low)
    ensures Lows(g, index, lowlink[v := Min(lowlink[v], low)])
  {
    hide Reach;
    var lowlink' := lowlink[v := Min(lowlink[v], low)];
    assert LowAt(g, index, v, lowlink[v]);
    var y :| y in index && index[y] == low && Reach(g, w, y);
    ReachEdge(g, v, w);
    ReachTrans(g, v, w, y);
    assert LowAt(g, index, v, lowlink'[v]);
    forall x | x in index && x != v
      ensures LowAt(g, index, x, lowlink'[x])
    {
      assert LowAt(g, index, x, lowlink[x]);
    }
  }

  // ---- lowlink: what one call of strongconnect promises its caller ----

  // The number low is the index of a vertex v reaches: v itself or one still on the stack.
  ghost predicate LowWitness(g: Graph, e: Env, v: Vertex, low: nat) {
    exists y :: y in e.index && e.index[y] == low && Reach(g, v, y) && (y == v || y in Members(e.stack))
  }

  // Every edge from the stack above position k to the stack below it ends at index low or later;
  // of v's own edges only those in `seen` count.
  ghost predicate LowBound(g: Graph, e: Env, v: Vertex, k: nat, seen: set<Vertex>, low: nat)
    requires Shape(e) && k <= |e.stack|
  {
    forall x, y {:trigger x in Members(e.stack[k..]), y in Succ(g, x)} ::
      x in Members(e.stack[k..]) && y in Members(e.stack[..k]) && y in Succ(g, x) && (x == v ==> y in seen)
      ==> low <= e.index[y]
  }

  // The state only grows: old indices stay, the old stack stays below, what is new on it was not indexed.
  ghost predicate Grown(e: Env, e': Env) {
    && e'.active == e.active
    && e.counter <= e'.counter
    && (forall x :: x in e.index ==> x in e'.index && e'.index[x] == e.index[x])
    && (forall x :: x in e'.index && x !in e.index ==> e.counter <= e'.index[x])
    && |e.stack| <= |e'.stack| && e'.stack[..|e.stack|] == e.stack
    && (forall x :: x in Members(e'.stack[|e.stack|..]) ==> x !in e.index)
    && |e.components| <= |e'.components| && e'.components[..|e.components|] == e.components
  }

  ghost predicate Finished(g: Graph, e: Env, e': Env, v: Vertex, low: nat) {
    && Valid(g, e') && Grown(e, e')
    && v in e'.index && low <= e'.index[v] && LowWitness(g, e', v, low)
    && LowBound(g, e', v, |e.stack|, Succ(g, v), low)
  }

  // What holds at the head of the loop over v's successors, `seen` of them behind it.
  ghost predicate Looping(g: Graph, e: Env, v: Vertex, k: nat, seen: set<Vertex>, low: nat) {
    && Valid(g, e)
    && k < |e.stack| && e.stack[k] == v && v in e.active
    && (forall i :: k < i < |e.stack| ==> e.stack[i] !in e.active)
    && seen <= e.index.Keys
    && low <= e.index[v] && LowWitness(g, e, v, low)
    && LowBound(g, e, v, k, seen, low)
  }

  function Min(a: nat, b: nat): nat {
    if a <= b then a else b
  }

  lemma EnterLoop(g: Graph, e: Env, v: Vertex)
    requires Valid(g, e) && v !in e.index
    requires forall x :: x in e.active ==> Reach(g, x, v)
    ensures Looping(g, Pushed(e, v), v, |e.stack|, {}, e.counter)
  {
    PushKeepsValid(g, e, v);
    ReachRefl(g, v);
  }

  lemma ActiveReachesSuccessor(g: Graph, e: Env, v: Vertex, k: nat, seen: set<Vertex>, low: nat, w: Vertex, x: Vertex)
    requires Looping(g, e, v, k, seen, low) && w in Succ(g, v) && x in e.active
    ensures Reach(g, x, w)
  {
    assert x in Members(e.stack);
    var i :| 0 <= i < |e.stack| && e.stack[i] == x;
    assert e.index[x] <= e.index[v];
    assert Reach(g, x, v);
    ReachEdge(g, v, w);
    ReachTrans(g, x, v, w);
  }

  // A successor that is already indexed.
  lemma IndexedSuccessor(g: Graph, e: Env, v: Vertex, k: nat, seen: set<Vertex>, low: nat, w: Vertex)
    requires Looping(g, e, v, k, seen, low) && w in Succ(g, v) && w in e.index
    ensures Looping(g, e, v, k, seen + {w}, if w in e.stack then Min(low, e.index[w]) else low)
  {
    ReachEdge(g, v, w);
    StackSplit(e, k);
  }

  lemma ChildWitness(g: Graph, e: Env, e': Env, v: Vertex, k: nat, seen: set<Vertex>, low: nat, w: Vertex, wLow: nat)
    requires Looping(g, e, v, k, seen, low) && w in Succ(g, v) && w !in e.index
    requires Finished(g, e, e', w, wLow)
    ensures LowWitness(g, e', v, Min(low, wLow))
  {
    if low <= wLow {
      var y :| y in e.index && e.index[y] == low && Reach(g, v, y) && (y == v || y in Members(e.stack));
      GrownKeepsStack(e, e', y);
    } else {
      var y :| y in e'.index && e'.index[y] == wLow && Reach(g, w, y) && (y == w || y in Members(e'.stack));
      ReachEdge(g, v, w);
      ReachTrans(g, v, w, y);
    }
  }

  lemma GrownKeepsStack(e: Env, e': Env, y: Vertex)
    requires Grown(e, e')
    ensures y in Members(e.stack) ==> y in Members(e'.stack)
  {
    if y in Members(e.stack) {
      assert y in e'.stack[..|e.stack|];
    }
  }

  lemma ChildEdgeBound(g: Graph, e: Env, e': Env, v: Vertex, k: nat, seen: set<Vertex>, low: nat, w: Vertex, wLow: nat,
                       i: nat, j: nat)
    requires Looping(g, e, v, k, seen, low) && w !in e.index
    requires Finished(g, e, e', w, wLow)
    requires j < k <= i < |e'.stack| && e'.stack[j] in Succ(g, e'.stack[i])
    requires e'.stack[i] == v ==> e'.stack[j] in seen + {w}
    ensures Min(low, wLow) <= e'.index[e'.stack[j]]
  {
    var x, y := e'.stack[i], e'.stack[j];
    assert y == e'.stack[..|e.stack|][j] == e.stack[j];
    if i < |e.stack| {
      assert x == e'.stack[..|e.stack|][i] == e.stack[i];
      assert x == e.stack[k..][i - k] && x in Members(e.stack[k..]);
      assert y == e.stack[..k][j] && y in Members(e.stack[..k]);
      assert y != w;
    } else {
      assert x == e'.stack[|e.stack|..][i - |e.stack|] && x in Members(e'.stack[|e.stack|..]);
      assert y in Members(e'.stack[..|e.stack|]);
    }
  }

  lemma ChildBound(g: Graph, e: Env, e': Env, v: Vertex, k: nat, seen: set<Vertex>, low: nat, w: Vertex, wLow: nat)
    requires Looping(g, e, v, k, seen, low) && w in Succ(g, v) && w !in e.index
    requires Finished(g, e, e', w, wLow)
    ensures LowBound(g, e', v, k, seen + {w}, Min(low, wLow))
  {
    forall x, y | x in Members(e'.stack[k..]) && y in Members(e'.stack[..k]) && y in Succ(g, x)
                  && (x == v ==> y in seen + {w})
      ensures Min(low, wLow) <= e'.index[y]
    {
      var i :| k <= i < |e'.stack| && e'.stack[i] == x;
      var j :| 0 <= j < k && e'.stack[j] == y;
      ChildEdgeBound(g, e, e', v, k, seen, low, w, wLow, i, j);
    }
  }

  lemma ChildPosition(g: Graph, e: Env, e': Env, v: Vertex, k: nat, seen: set<Vertex>, low: nat, w: Vertex, wLow: nat)
    requires Looping(g, e, v, k, seen, low) && w !in e.index
    requires Finished(g, e, e', w, wLow)
    ensures k < |e'.stack| && e'.stack[k] == v
    ensures forall i :: k < i < |e'.stack| ==> e'.stack[i] !in e'.active
  {
    assert e'.stack[k] == e'.stack[..|e.stack|][k];
    forall i | k < i < |e'.stack|
      ensures e'.stack[i] !in e'.active
    {
      if i < |e.stack| {
        assert e'.stack[i] == e'.stack[..|e.stack|][i];
      } else {
        assert e'.stack[i] in Members(e'.stack[|e.stack|..]);
        assert e'.stack[i] !in e.index;
      }
    }
  }

  // A successor explored by a recursive call.
  lemma ExploredSuccessor(g: Graph, e: Env, e': Env, v: Vertex, k: nat, seen: set<Vertex>, low: nat, w: Vertex,
                          wLow: nat)
    requires Looping(g, e, v, k, seen, low) && w in Succ(g, v) && w !in e.index
    requires Finished(g, e, e', w, wLow)
    ensures Looping(g, e', v, k, seen + {w}, Min(low, wLow))
  {
    ChildWitness(g, e, e', v, k, seen, low, w, wLow);
    ChildBound(g, e, e', v, k, seen, low, w, wLow);
    ChildPosition(g, e, e', v, k, seen, low, w, wLow);
  }

  lemma GrownTrans(e0: Env, e1: Env, e2: Env)
    requires Grown(e0, e1) && Grown(e1, e2)
    ensures Grown(e0, e2)
  {
    var k, m := |e0.stack|, |e1.stack|;
    assert e2.stack[..k] == e2.stack[..m][..k];
    assert e2.components[..|e0.components|] == e2.components[..|e1.components|][..|e0.components|];
    forall x | x in Members(e2.stack[k..])
      ensures x !in e0.index
    {
      var i :| k <= i < |e2.stack| && e2.stack[i] == x;
      if i < m {
        assert e2.stack[..m][i] == x && e1.stack[k..][i - k] == x;
      } else {
        assert e2.stack[m..][i - m] == x;
      }
    }
  }

  // Pushing v and later taking it off the active set is growth from before the push.
  lemma GrownOverPush(e0: Env, e: Env, v: Vertex)
    requires Shape(e0) && v !in e0.index && Grown(Pushed(e0, v), e)
    ensures v !in e0.active ==> Grown(e0, e.(active := e.active - {v}))
  {
    var k := |e0.stack|;
    assert e.stack[..k] == e.stack[..k + 1][..k];
    forall x | x in Members(e.stack[k..])
      ensures x !in e0.index
    {
      var i :| k <= i < |e.stack| && e.stack[i] == x;
      if i == k {
        assert x == e.stack[..k + 1][k];
      } else {
        assert e.stack[k + 1..][i - k - 1] == x;
        assert x in Members(e.stack[|Pushed(e0, v).stack|..]);
        assert x !in Pushed(e0, v).index;
      }
    }
  }

  lemma LeaveOpen(g: Graph, e0: Env, e: Env, v: Vertex, low: nat)
    requires Valid(g, e0) && v !in e0.index && Grown(Pushed(e0, v), e)
    requires Looping(g, e, v, |e0.stack|, Succ(g, v), low) && low < e.index[v]
    ensures Finished(g, e0, e.(active := e.active - {v}), v, low)
  {
    var y :| y in e.index && e.index[y] == low && Reach(g, v, y) && (y == v || y in Members(e.stack));
    ReturnKeepsValid(g, e, v, |e0.stack|, y);
    GrownOverPush(e0, e, v);
  }

  lemma NothingBelow(g: Graph, e: Env, v: Vertex, k: nat, low: nat)
    requires Looping(g, e, v, k, Succ(g, v), low) && low == e.index[v]
    ensures NoEdgeBelow(g, e, k)
  {
    forall x, y | x in e.stack[k..] && y in e.stack[..k]
      ensures y !in Succ(g, x)
    {
      var j :| 0 <= j < k && e.stack[j] == y;
      assert x in Members(e.stack[k..]) && y in Members(e.stack[..k]);
      assert e.index[y] < e.index[v];
    }
  }

  lemma GrownByPop(e0: Env, e: Env, v: Vertex)
    requires Grown(e0, e.(active := e.active - {v})) && |e0.stack| < |e.stack|
    ensures Grown(e0, Popped(e, v, |e0.stack|))
  {
  }

  lemma LeavePopping(g: Graph, e0: Env, e: Env, v: Vertex, low: nat)
    requires Valid(g, e0) && v !in e0.index && Grown(Pushed(e0, v), e)
    requires Looping(g, e, v, |e0.stack|, Succ(g, v), low) && low == e.index[v]
    ensures Finished(g, e0, Popped(e, v, |e0.stack|), v, low)
  {
    NothingBelow(g, e, v, |e0.stack|, low);
    PopKeepsValid(g, e, v, |e0.stack|);
    GrownOverPush(e0, e, v);
    GrownByPop(e0, e, v);
    ReachRefl(g, v);
  }

  lemma LoopingFacts(g: Graph, e: Env, v: Vertex, k: nat, seen: set<Vertex>, low: nat)
    requires Looping(g, e, v, k, seen, low)
    ensures Valid(g, e) && Shape(e) && v in e.index && low <= e.index[v]
    ensures k < |e.stack| && e.stack[k] == v
    ensures forall i, j :: 0 <= i < j < |e.stack| ==> e.stack[i] != e.stack[j]
  {
  }

  lemma FinishedFacts(g: Graph, e: Env, e': Env, v: Vertex, low: nat)
    requires Finished(g, e, e', v, low)
    ensures Valid(g, e') && Grown(e, e') && v in e'.index && e.index.Keys <= e'.index.Keys
  {
  }

  lemma GrownRefl(e: Env)
    ensures Grown(e, e)
  {
  }

  lemma EmptyIsValid(g: Graph)
    ensures Valid(g, Env(map[], 0, [], {}, []))
  {
  }

  lemma StackNeedsActive(g: Graph, e: Env, y: Vertex)
    requires Valid(g, e) && y in e.stack
    ensures e.active != {}
  {
    assert Anchored(g, e, y);
  }

  // Between root calls nothing is left on the stack, and every indexed vertex is in a component.
  lemma IdleStackEmpty(g: Graph, e: Env)
    requires Valid(g, e) && e.active == {}
    ensures e.stack == [] && AllComponents(g, e.components) && Union(e.components) == e.index.Keys
  {
    if e.stack != [] {
      StackNeedsActive(g, e, e.stack[0]);
    }
  }
}
