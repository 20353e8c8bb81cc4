/** Python's built-in `sorted`, and the code-point order of strings. */
module Sorting {

  predicate StrLe(a: string, b: string) {
    if a == [] then true
    else if b == [] then false
    else if a[0] != b[0] then a[0] < b[0]
    else StrLe(a[1..], b[1..])
  }

  lemma {:induction false} StrLeTotal(a: string, b: string)
    ensures StrLe(a, b) || StrLe(b, a)
  {
    if a != [] && b != [] && a[0] == b[0] {
      StrLeTotal(a[1..], b[1..]);
    }
  }

  lemma {:induction false} StrLeTransitive(a: string, b: string, c: string)
    requires StrLe(a, b) && StrLe(b, c)
    ensures StrLe(a, c)
  {
    if a != [] && b != [] && c != [] && a[0] == b[0] == c[0] {
      StrLeTransitive(a[1..], b[1..], c[1..]);
    }
  }

  // One is a prefix of the other, or the characters at the first difference decide.
  lemma {:induction false} StrLeAtFirstDifference(a: string, b: string)
    ensures StrLe(a, b) <==>
            a <= b || exists k :: 0 <= k < |a| && k < |b| && a[..k] == b[..k] && a[k] < b[k]
  {
    if a != [] && b != [] {
      if a[0] == b[0] {
        var s, t := a[1..], b[1..];
        StrLeAtFirstDifference(s, t);
        assert a == [a[0]] + s && b == [b[0]] + t;
        if k :| 0 <= k < |s| && k < |t| && s[..k] == t[..k] && s[k] < t[k] {
          assert a[..k + 1] == [a[0]] + s[..k] && b[..k + 1] == [b[0]] + t[..k];
          assert a[k + 1] < b[k + 1];
        }
        if k :| 0 <= k < |a| && k < |b| && a[..k] == b[..k] && a[k] < b[k] {
          assert s[..k - 1] == a[1..k] && t[..k - 1] == b[1..k];
          assert a[1..k] == a[..k][1..] && b[1..k] == b[..k][1..];
          assert s[k - 1] < t[k - 1];
        }
      } else {
        assert a[..0] == b[..0];
        assert forall k :: 0 < k < |a| && k < |b| ==> a[..k][0] != b[..k][0];
      }
    }
  }

  ghost predicate TotalPreorder<T(!new)>(le: (T, T) -> bool) {
    && (forall x, y :: le(x, y) || le(y, x))
    && (forall x, y, z :: le(x, y) && le(y, z) ==> le(x, z))
  }

  ghost predicate SortedBy<T>(le: (T, T) -> bool, s: seq<T>) {
    forall i, j :: 0 <= i < j < |s| ==> le(s[i], s[j])
  }

  function Insert<T>(le: (T, T) -> bool, x: T, s: seq<T>): seq<T> {
    if s == [] then [x]
    else if le(x, s[0]) then [x] + s
    else [s[0]] + Insert(le, x, s[1..])
  }

  function Sort<T>(le: (T, T) -> bool, s: seq<T>): seq<T> {
    if s == [] then [] else Insert(le, s[0], Sort(le, s[1..]))
  }

  // The first element is below all later ones, and so on down the sequence.
  ghost predicate Ordered<T>(le: (T, T) -> bool, s: seq<T>) {
    s == [] || ((forall i :: 1 <= i < |s| ==> le(s[0], s[i])) && Ordered(le, s[1..]))
  }

  lemma {:induction false} OrderedIsSorted<T>(le: (T, T) -> bool, s: seq<T>)
    ensures Ordered(le, s) <==> SortedBy(le, s)
  {
    if s != [] {
      OrderedIsSorted(le, s[1..]);
      if Ordered(le, s) {
        forall i, j | 0 <= i < j < |s|
          ensures le(s[i], s[j])
        {
          if i > 0 {
            assert s[i] == s[1..][i - 1] && s[j] == s[1..][j - 1];
          }
        }
      }
    }
  }

  lemma InsertMembers<T>(le: (T, T) -> bool, x: T, s: seq<T>)
    ensures multiset(Insert(le, x, s)) == multiset(s) + multiset{x}
    ensures |Insert(le, x, s)| == |s| + 1
  {
    if s != [] {
      assert s == [s[0]] + s[1..];
    }
  }

  lemma BelowAll<T(!new)>(le: (T, T) -> bool, x: T, s: seq<T>)
    requires TotalPreorder(le) && Ordered(le, s) && s != [] && le(x, s[0])
    ensures forall i :: 0 <= i < |s| ==> le(x, s[i])
  {
    forall i | 0 <= i < |s|
      ensures le(x, s[i])
    {
      assert i == 0 || le(s[0], s[i]);
    }
  }

  lemma {:induction false} InsertOrdered<T(!new)>(le: (T, T) -> bool, x: T, s: seq<T>)
    requires TotalPreorder(le) && Ordered(le, s)
    ensures Ordered(le, Insert(le, x, s))
  {
    if s == [] {
    } else if le(x, s[0]) {
      BelowAll(le, x, s);
    } else {
      InsertOrdered(le, x, s[1..]);
      InsertMembers(le, x, s[1..]);
      var r := Insert(le, x, s[1..]);
      forall i | 0 <= i < |r|
        ensures le(s[0], r[i])
      {
        assert r[i] in multiset(r);
        if r[i] != x {
          assert r[i] in s[1..];
        }
      }
    }
  }

  // `sorted` returns a sorted rearrangement.
  lemma {:induction false} SortSorts<T(!new)>(le: (T, T) -> bool, s: seq<T>)
    requires TotalPreorder(le)
    ensures SortedBy(le, Sort(le, s)) && multiset(Sort(le, s)) == multiset(s) && |Sort(le, s)| == |s|
  {
    if s != [] {
      assert s == [s[0]] + s[1..];
      SortSorts(le, s[1..]);
      OrderedIsSorted(le, Sort(le, s[1..]));
      InsertOrdered(le, s[0], Sort(le, s[1..]));
      InsertMembers(le, s[0], Sort(le, s[1..]));
    }
    OrderedIsSorted(le, Sort(le, s));
  }

  // Sorting what is sorted changes nothing.
  lemma {:induction false} SortedStays<T>(le: (T, T) -> bool, s: seq<T>)
    requires SortedBy(le, s)
    ensures Sort(le, s) == s
  {
    if s != [] {
      SortedStays(le, s[1..]);
      assert |s| > 1 ==> le(s[0], s[1]);
    }
  }

  lemma SameMembers<T>(s: seq<T>, t: seq<T>)
    requires multiset(s) == multiset(t)
    ensures forall x :: x in s <==> x in t
  {
    forall x
      ensures x in s <==> x in t
    {
      assert x in s <==> x in multiset(s);
    }
  }

  ghost predicate Distinct<T>(s: seq<T>) {
    forall i, j :: 0 <= i < j < |s| ==> s[i] != s[j]
  }

  lemma {:induction false} DistinctIsSimple<T>(s: seq<T>)
    ensures Distinct(s) ==> forall x :: multiset(s)[x] <= 1
    ensures (forall x :: multiset(s)[x] <= 1) ==> Distinct(s)
  {
    if s != [] {
      var t := s[1..];
      assert s == [s[0]] + t;
      DistinctIsSimple(t);
      assert Distinct(s) ==> s[0] !in t;
      if forall x :: multiset(s)[x] <= 1 {
        assert forall x :: multiset(t)[x] <= multiset(s)[x];
        assert multiset(s)[s[0]] == 1 + multiset(t)[s[0]];
      }
    }
  }

  lemma DistinctPermutes<T>(s: seq<T>, t: seq<T>)
    requires multiset(s) == multiset(t) && Distinct(s)
    ensures Distinct(t)
  {
    DistinctIsSimple(s);
    DistinctIsSimple(t);
  }

  function Ascending(): (string, string) -> bool {
    (a: string, b: string) => StrLe(a, b)
  }

  lemma SortStrings(s: seq<string>)
    ensures SortedBy(Ascending(), Sort(Ascending(), s)) && |Sort(Ascending(), s)| == |s|
    ensures forall p :: p in Sort(Ascending(), s) <==> p in s
    ensures Distinct(Sort(Ascending(), s)) <==> Distinct(s)
  {
    hide Sort;
    forall x, y
      ensures Ascending()(x, y) || Ascending()(y, x)
    {
      StrLeTotal(x, y);
    }
    forall x, y, z | Ascending()(x, y) && Ascending()(y, z)
      ensures Ascending()(x, z)
    {
      StrLeTransitive(x, y, z);
    }
    SortSorts(Ascending(), s);
    SameMembers(Sort(Ascending(), s), s);
    if Distinct(s) {
      DistinctPermutes(s, Sort(Ascending(), s));
    }
    if Distinct(Sort(Ascending(), s)) {
      DistinctPermutes(Sort(Ascending(), s), s);
    }
  }
}
