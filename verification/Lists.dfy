/** Optional values, filtering and counting lists, and lists without repetitions. */
module Lists {
  import opened Sorting

  datatype Option<+T> = None | Some(value: T)

  // Python's sum(1 for x in s if f(x)).
  function CountIf<T>(s: seq<T>, f: T -> bool): nat {
    if s == [] then 0 else CountIf(s[..|s| - 1], f) + if f(s[|s| - 1]) then 1 else 0
  }

  // Python's [x for x in s if f(x)].
  function Filter<T>(s: seq<T>, f: T -> bool): seq<T> {
    if s == [] then [] else Filter(s[..|s| - 1], f) + if f(s[|s| - 1]) then [s[|s| - 1]] else []
  }

  // Python's s[:n].
  function Take<T>(s: seq<T>, n: nat): (r: seq<T>)
    ensures r <= s && |r| == if |s| < n then |s| else n
  {
    if |s| <= n then s else s[..n]
  }

  lemma TakeGrows<T>(s: seq<T>, x: T, n: nat)
    ensures Take(s + [x], n) == if |Take(s, n)| < n then Take(s, n) + [x] else Take(s, n)
  {
  }

  lemma {:induction false} CountsSome<T>(s: seq<T>, f: T -> bool)
    ensures CountIf(s, f) > 0 <==> exists x :: x in s && f(x)
  {
    if s != [] {
      var t, x := s[..|s| - 1], s[|s| - 1];
      CountsSome(t, f);
      assert forall y :: y in s <==> y in t || y == x;
    }
  }

  // A count is the number of places where the test holds.
  lemma {:induction false} CountsPlaces<T>(s: seq<T>, f: T -> bool, places: set<int>)
    requires forall i :: i in places <==> 0 <= i < |s| && f(s[i])
    ensures CountIf(s, f) == |places|
  {
    if s == [] {
      assert forall i :: i !in places;
      assert places == {};
    } else {
      var t, n := s[..|s| - 1], |s| - 1;
      CountsPlaces(t, f, places - {n});
      assert places == if f(s[n]) then (places - {n}) + {n} else places - {n};
    }
  }

  lemma {:induction false} CountIfAll<T>(s: seq<T>, f: T -> bool)
    ensures CountIf(s, f) <= |s|
    ensures CountIf(s, f) == |s| <==> forall x :: x in s ==> f(x)
  {
    if s != [] {
      CountIfAll(s[..|s| - 1], f);
      assert forall x :: x in s <==> x in s[..|s| - 1] || x == s[|s| - 1];
    }
  }

  lemma {:induction false} FilterMembers<T>(s: seq<T>, f: T -> bool)
    ensures forall x :: x in Filter(s, f) <==> x in s && f(x)
    ensures |Filter(s, f)| == CountIf(s, f)
  {
    if s != [] {
      var t, x := s[..|s| - 1], s[|s| - 1];
      FilterMembers(t, f);
      assert forall y :: y in s <==> y in t || y == x;
    }
  }

  // The places where the test holds, in order.
  ghost predicate Places<T>(s: seq<T>, f: T -> bool, at: seq<nat>) {
    && (forall i, j :: 0 <= i < j < |at| ==> at[i] < at[j])
    && forall k: nat :: k in at <==> k < |s| && f(s[k])
  }

  lemma PlacesGrow<T>(s: seq<T>, x: T, f: T -> bool, at: seq<nat>)
    requires Places(s, f, at)
    ensures Places(s + [x], f, if f(x) then at + [|s|] else at)
  {
    var t, more := s + [x], if f(x) then at + [|s|] else at;
    assert forall i :: 0 <= i < |at| ==> at[i] in at;
    forall k: nat
      ensures k in more <==> k < |t| && f(t[k])
    {
      assert k < |s| ==> t[k] == s[k];
      assert k in more <==> k in at || (f(x) && k == |s|);
    }
  }

  // Filtering keeps exactly the elements that pass, in their order.
  lemma {:induction false} FilterKeepsOrder<T>(s: seq<T>, f: T -> bool) returns (at: seq<nat>)
    ensures Places(s, f, at) && |at| == |Filter(s, f)|
    ensures forall i :: 0 <= i < |at| ==> at[i] < |s| && Filter(s, f)[i] == s[at[i]]
  {
    hide Places;
    if s == [] {
      at := [];
      assert Places(s, f, at) by {
        PlacesOfNone(s, f);
      }
    } else {
      var t, x := s[..|s| - 1], s[|s| - 1];
      at := FilterKeepsOrder(t, f);
      PlacesGrow(t, x, f, at);
      assert s == t + [x];
      at := if f(x) then at + [|t|] else at;
    }
  }

  lemma PlacesOfNone<T>(s: seq<T>, f: T -> bool)
    requires s == []
    ensures Places(s, f, [])
  {
  }

  ghost function Members<T>(s: seq<T>): set<T> {
    set x | x in s
  }

  lemma MembersGrow<T>(s: seq<T>, x: T)
    ensures Members(s + [x]) == Members(s) + {x}
  {
  }

  lemma DistinctGrows<T>(s: seq<T>, x: T)
    ensures Distinct(s + [x]) <==> Distinct(s) && x !in s
  {
    var t := s + [x];
    if Distinct(t) {
      forall i, j | 0 <= i < j < |s|
        ensures s[i] != s[j]
      {
        assert t[i] != t[j];
      }
      forall i | 0 <= i < |s|
        ensures s[i] != x
      {
        assert t[i] != t[|s|];
      }
    }
  }

  lemma {:induction false} FilterAll<T>(s: seq<T>, f: T -> bool)
    requires forall x :: x in s ==> f(x)
    ensures Filter(s, f) == s
  {
    if s != [] {
      var t, x := s[..|s| - 1], s[|s| - 1];
      assert s == t + [x];
      FilterAll(t, f);
      assert f(x);
    }
  }

  lemma {:induction false} FilterNone<T>(s: seq<T>, f: T -> bool)
    requires forall x :: x in s ==> !f(x)
    ensures Filter(s, f) == []
  {
    if s != [] {
      FilterNone(s[..|s| - 1], f);
      assert !f(s[|s| - 1]);
    }
  }

  lemma {:induction false} FilterConcat<T>(s: seq<T>, t: seq<T>, f: T -> bool)
    ensures Filter(s + t, f) == Filter(s, f) + Filter(t, f)
  {
    if t == [] {
      assert s + t == s;
    } else {
      var head, x := t[..|t| - 1], t[|t| - 1];
      FilterConcat(s, head, f);
      assert (s + t)[..|s + t| - 1] == s + head && (s + t)[|s + t| - 1] == x;
    }
  }

  lemma {:induction false} FilterDistinct<T>(s: seq<T>, f: T -> bool)
    requires Distinct(s)
    ensures Distinct(Filter(s, f))
  {
    if s != [] {
      var t, x := s[..|s| - 1], s[|s| - 1];
      assert s == t + [x];
      DistinctGrows(t, x);
      FilterDistinct(t, f);
      FilterMembers(t, f);
      DistinctGrows(Filter(t, f), x);
    }
  }

  lemma {:induction false} DistinctCount<T>(s: seq<T>)
    requires Distinct(s)
    ensures |Members(s)| == |s|
  {
    if s != [] {
      var t, x := s[..|s| - 1], s[|s| - 1];
      assert s == t + [x];
      DistinctGrows(t, x);
      DistinctCount(t);
      assert Members(s) == Members(t) + {x};
    }
  }

  lemma {:induction false} CountIfSame<T>(s: seq<T>, f: T -> bool, g: T -> bool)
    requires forall x :: x in s ==> f(x) == g(x)
    ensures CountIf(s, f) == CountIf(s, g)
  {
    if s != [] {
      CountIfSame(s[..|s| - 1], f, g);
    }
  }

  lemma {:induction false} FilterTwice<T>(s: seq<T>, f: T -> bool)
    ensures Filter(Filter(s, f), f) == Filter(s, f)
  {
    if s != [] {
      var t, x := s[..|s| - 1], s[|s| - 1];
      FilterTwice(t, f);
      var kept := Filter(t, f);
      assert (kept + [x])[..|kept|] == kept;
      if f(x) {
        assert Filter(kept + [x], f) == Filter(kept, f) + [x];
      } else {
        assert Filter(s, f) == kept;
      }
    }
  }

  function Tied<T>(le: (T, T) -> bool, x: T): T -> bool {
    (y: T) => le(x, y) && le(y, x)
  }

  lemma {:induction false} InsertKeepsTies<T(!new)>(le: (T, T) -> bool, x: T, s: seq<T>, y: T)
    requires TotalPreorder(le)
    ensures Filter(Insert(le, x, s), Tied(le, y)) == Filter([x] + s, Tied(le, y))
  {
    if s != [] && !le(x, s[0]) {
      var rest, f := s[1..], Tied(le, y);
      InsertKeepsTies(le, x, rest, y);
      FilterConcat([s[0]], Insert(le, x, rest), f);
      FilterConcat([x], rest, f);
      FilterConcat([x], s, f);
      assert s == [s[0]] + rest;
      FilterConcat([s[0]], rest, f);
      assert !(f(x) && f(s[0]));
      FilterOne(x, f);
      FilterOne(s[0], f);
    }
  }

  lemma FilterOne<T>(x: T, f: T -> bool)
    ensures Filter([x], f) == if f(x) then [x] else []
  {
    assert [x][..0] == [];
  }

  // `sorted` is stable: elements that compare equal stay in their order.
  lemma {:induction false} SortIsStable<T(!new)>(le: (T, T) -> bool, s: seq<T>, y: T)
    requires TotalPreorder(le)
    ensures Filter(Sort(le, s), Tied(le, y)) == Filter(s, Tied(le, y))
  {
    if s != [] {
      var rest, f := s[1..], Tied(le, y);
      SortIsStable(le, rest, y);
      InsertKeepsTies(le, s[0], Sort(le, rest), y);
      FilterConcat([s[0]], Sort(le, rest), f);
      FilterConcat([s[0]], rest, f);
      assert s == [s[0]] + rest;
    }
  }

  // Counting a list without repetitions counts the set of what is counted.
  lemma {:induction false} CountIsSize<T>(s: seq<T>, f: T -> bool, counted: set<T>)
    requires Distinct(s) && forall x :: x in counted <==> x in s && f(x)
    ensures CountIf(s, f) == |counted|
  {
    FilterMembers(s, f);
    FilterDistinct(s, f);
    DistinctCount(Filter(s, f));
    assert Members(Filter(s, f)) == counted;
  }

  // A set of strings as a sorted list.
  ghost predicate Sorted(list: seq<string>, s: set<string>) {
    Distinct(list) && Members(list) == s && SortedBy(Ascending(), list)
  }

  method SortedSet(s: set<string>) returns (list: seq<string>)
    ensures Sorted(list, s)
  {
    var rest := s;
    var picked: seq<string> := [];
    while rest != {}
      invariant rest <= s && Members(picked) == s - rest && Distinct(picked)
    {
      var x :| x in rest;
      DistinctGrows(picked, x);
      MembersGrow(picked, x);
      rest := rest - {x};
      picked := picked + [x];
    }
    hide Sort;
    SortStrings(picked);
    list := Sort(Ascending(), picked);
    assert Members(list) == Members(picked);
  }
}
