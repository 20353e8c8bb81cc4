/** The warmup evidence the audit accepts, written out row by row, and what the keeper hash is made of. */
module WarmupFair {
  import opened Lists
  import opened Sorting
  import opened Warmup

  // ---- the hash ----

  ghost predicate Continues(b: int) {
    0x80 <= b < 0xC0
  }

  lemma SixBits(n: nat)
    ensures n == n / 0x40 * 0x40 + n % 0x40
    ensures n / 0x1000 == n / 0x40 / 0x40 && n / 0x4_0000 == n / 0x1000 / 0x40
  {
  }

  lemma SixBitGroups(n: nat)
    ensures n == n / 0x1000 * 0x1000 + n / 0x40 % 0x40 * 0x40 + n % 0x40
    ensures n == n / 0x4_0000 * 0x4_0000 + n / 0x1000 % 0x40 * 0x1000 + n / 0x40 % 0x40 * 0x40 + n % 0x40
  {
    SixBits(n);
    var a := n / 0x40;
    assert a == a / 0x40 * 0x40 + a % 0x40;
    var b := n / 0x1000;
    assert b == b / 0x40 * 0x40 + b % 0x40;
  }

  /** Each character's bytes decode to it: the first says how many there are, the others carry six bits each. */
  lemma BytesDecode(c: char)
    ensures var b, n := Bytes(c), c as int;
            && (n < 0x80 ==> b == [n])
            && (0x80 <= n < 0x800 ==>
                  |b| == 2 && 0xC0 <= b[0] < 0xE0 && Continues(b[1]) && (b[0] - 0xC0) * 0x40 + (b[1] - 0x80) == n)
            && (0x800 <= n < 0x1_0000 ==>
                  |b| == 3 && 0xE0 <= b[0] < 0xF0 && Continues(b[1]) && Continues(b[2])
                  && (b[0] - 0xE0) * 0x1000 + (b[1] - 0x80) * 0x40 + (b[2] - 0x80) == n)
            && (0x1_0000 <= n ==>
                  |b| == 4 && 0xF0 <= b[0] < 0xF8 && Continues(b[1]) && Continues(b[2]) && Continues(b[3])
                  && (b[0] - 0xF0) * 0x4_0000 + (b[1] - 0x80) * 0x1000 + (b[2] - 0x80) * 0x40 + (b[3] - 0x80) == n)
  {
    var n := c as int;
    SixBits(n);
    SixBitGroups(n);
    if n < 0x80 {
      assert Bytes(c) == [n];
    } else if n < 0x800 {
      assert Bytes(c) == [0xC0 + n / 0x40, 0x80 + n % 0x40];
    } else if n < 0x1_0000 {
      assert Bytes(c) == [0xE0 + n / 0x1000, 0x80 + n / 0x40 % 0x40, 0x80 + n % 0x40];
    } else {
      assert Bytes(c)[0] == 0xF0 + n / 0x4_0000 && Bytes(c)[1] == 0x80 + n / 0x1000 % 0x40;
    }
  }

  lemma {:induction false} EncodeConcat(s: string, t: string)
    ensures Encode(s + t) == Encode(s) + Encode(t)
  {
    hide Bytes;
    if s == [] {
      assert s + t == t;
    } else {
      EncodeConcat(s[1..], t);
      assert (s + t)[1..] == s[1..] + t && (s + t)[0] == s[0];
      calc {
        Encode(s + t);
        Bytes(s[0]) + Encode(s[1..] + t);
        Bytes(s[0]) + (Encode(s[1..]) + Encode(t));
        (Bytes(s[0]) + Encode(s[1..])) + Encode(t);
        Encode(s) + Encode(t);
      }
    }
  }

  /** One more byte multiplies the hash by 33 and adds the byte, modulo 2 to the 30; no byte gives 5381. */
  lemma HashSteps(bytes: seq<int>, b: int)
    ensures Polynomial([]) == 5381
    ensures Polynomial(bytes + [b]) % 0x4000_0000 == (33 * (Polynomial(bytes) % 0x4000_0000) + b) % 0x4000_0000
  {
    PolynomialStep(bytes, b);
    var p := Polynomial(bytes);
    MaskedStep(p % MASK, p, b);
  }

  // ---- fair evidence ----

  // The row of a keeper, with the delay its name gives it.
  ghost predicate FairRow(r: Option<Row>, base: int, window: int)
    requires window >= 0
  {
    && r.Some? && r.value.name.Some?
    && (var h, row := Hash(r.value.name.value), r.value;
        && row.nameHash == Some(h) && row.jitter == Some(h % (window + 1))
        && row.warmup == Some(base + h % (window + 1)) && row.withinBound)
  }

  ghost predicate FairRows(rows: seq<Option<Row>>, base: int, window: int)
    requires window >= 0
  {
    && RowsAreKeepers(rows) && RowsArePositions(rows)
    && forall i :: 0 <= i < |rows| ==> FairRow(rows[i], base, window)
  }

  // Everything the audit asks for. The fixed claims are the good ones, but for two counts that need only be three.
  ghost predicate Fair(e: Evidence, catalogId: Option<string>) {
    && catalogId.Some? && e.catalogId == catalogId
    && e.claims.distinctWarmups.Some? && e.claims.distinctWarmups.value >= 3 && e.claims.prRefs >= 3
    && e.claims == GOOD_CLAIMS.(distinctWarmups := e.claims.distinctWarmups, prRefs := e.claims.prRefs)
    && e.base.Some? && e.base.value >= 0 && e.window.Some? && e.window.value > 0
    && e.maxDelay == Some(e.base.value + e.window.value)
    && FairRows(e.rows, e.base.value, e.window.value)
    && e.late == Late(Some("verifier"), Some(13), Some(e.base.value + Hash("verifier") % (e.window.value + 1)),
                      Some(e.base.value + 13 * e.window.value), true, true)
  }

  lemma ClaimsAreGood(c: Claims)
    ensures ClaimsHold(c) <==>
            && c.distinctWarmups.Some? && c.distinctWarmups.value >= 3 && c.prRefs >= 3
            && c == GOOD_CLAIMS.(distinctWarmups := c.distinctWarmups, prRefs := c.prRefs)
  {
  }

  lemma RowIsFair(r: Option<Row>, base: int, window: int)
    requires window >= 0
    ensures RowOk(r, Some(base), Some(window), Some(base + window)) <==> FairRow(r, base, window)
  {
    hide Hash;
    if Named(r) {
      JitterInWindow(r.value.name.value, window);
    }
  }

  // ---- positions ----

  // Two ascending lists of the same numbers are the same.
  lemma {:induction false} AscendingIsUnique(s: seq<int>, t: seq<int>)
    requires SortedBy(AtMost(), s) && SortedBy(AtMost(), t) && multiset(s) == multiset(t)
    ensures s == t
  {
    assert |s| == |multiset(s)| == |multiset(t)| == |t|;
    if s != [] {
      SameFirst(s, t);
      WithoutFirst(s);
      WithoutFirst(t);
      hide SortedBy;
      AscendingIsUnique(s[1..], t[1..]);
      assert s == [s[0]] + s[1..] && t == [t[0]] + t[1..];
    }
  }

  lemma SameFirst(s: seq<int>, t: seq<int>)
    requires s != [] && t != [] && SortedBy(AtMost(), s) && SortedBy(AtMost(), t) && multiset(s) == multiset(t)
    ensures s[0] == t[0]
  {
    SameMembers(s, t);
    FirstIsLeast(s);
    FirstIsLeast(t);
    hide SortedBy;
    assert s[0] in s && t[0] in t;
  }

  lemma WithoutFirst(s: seq<int>)
    requires s != [] && SortedBy(AtMost(), s)
    ensures multiset(s[1..]) == multiset(s) - multiset{s[0]} && SortedBy(AtMost(), s[1..])
  {
    assert s == [s[0]] + s[1..];
    assert multiset(s) == multiset{s[0]} + multiset(s[1..]);
  }

  lemma FirstIsLeast(s: seq<int>)
    requires s != [] && SortedBy(AtMost(), s)
    ensures forall x :: x in s ==> s[0] <= x
  {
    forall x | x in s
      ensures s[0] <= x
    {
      var i :| 0 <= i < |s| && s[i] == x;
      assert i == 0 || AtMost()(s[0], s[i]);
    }
  }

  lemma {:induction false} SameElements(s: seq<int>, t: seq<int>)
    requires Distinct(s) && Distinct(t) && forall x :: x in s <==> x in t
    ensures multiset(s) == multiset(t)
  {
    DistinctIsSimple(s);
    DistinctIsSimple(t);
    forall x
      ensures multiset(s)[x] == multiset(t)[x]
    {
      assert x in s <==> x in multiset(s);
      assert x in t <==> x in multiset(t);
    }
  }

  lemma PositionsSort(rows: seq<Option<Row>>)
    requires |rows| == 14 && RowsArePositions(rows) && forall i :: 0 <= i < |rows| ==> Named(rows[i])
    ensures Sort(AtMost(), Positions(rows)) == seq(|REQUIRED|, i => i)
  {
    hide Sort, Positions;
    var ps, range := Positions(rows), seq(|REQUIRED|, i => i);
    AllPositions(rows);
    assert forall i :: 0 <= i < |ps| ==> ps[i] == PositionOf(rows[i]);
    forall x
      ensures x in ps <==> x in range
    {
      if x in range {
        assert HasRowAt(rows, x);
        var i :| 0 <= i < |rows| && PositionOf(rows[i]) == x;
        assert ps[i] == x;
      }
      if x in ps {
        var i :| 0 <= i < |ps| && ps[i] == x;
        assert HasPosition()(rows[i]);
        assert range[x] == x;
      }
    }
    SameElements(ps, range);
    SortSorts(AtMost(), ps);
    AscendingIsUnique(Sort(AtMost(), ps), range);
  }

  lemma {:induction false} AllPositions(rows: seq<Option<Row>>)
    requires forall i :: 0 <= i < |rows| ==> Named(rows[i]) && HasPosition()(rows[i])
    ensures |Positions(rows)| == |rows| && forall i :: 0 <= i < |rows| ==> Positions(rows)[i] == PositionOf(rows[i])
  {
    if rows != [] {
      AllPositions(rows[..|rows| - 1]);
    }
  }

  // ---- names ----

  lemma NamesAreRequired(rows: seq<Option<Row>>)
    requires RowsAreKeepers(rows)
    ensures ByName(rows).Keys == Members(REQUIRED)
  {
    hide ByName, REQUIRED;
    NamesAreRows(rows);
    forall n
      ensures n in ByName(rows) <==> n in REQUIRED
    {
      if n in ByName(rows) {
        var i :| 0 <= i < |rows| && Named(rows[i]) && rows[i].value.name == Some(n);
      }
    }
  }

  // The row kept under a name is one of the rows with it.
  lemma {:induction false} ByNameIsRow(rows: seq<Option<Row>>, n: string)
    requires n in ByName(rows)
    ensures Some(ByName(rows)[n]) in rows && ByName(rows)[n].name == Some(n)
  {
    var t, r := rows[..|rows| - 1], rows[|rows| - 1];
    assert rows == t + [r];
    if !(Named(r) && r.value.name.value == n) {
      ByNameIsRow(t, n);
    }
  }

  lemma VerifierIsRequired()
    ensures "verifier" in REQUIRED && |REQUIRED| == 14
  {
    assert REQUIRED[13] == "verifier";
  }

  lemma LateIsVerifier(e: Evidence)
    requires e.base.Some? && e.window.Some? && e.window.value >= 0
    requires e.maxDelay == Some(e.base.value + e.window.value)
    requires FairRows(e.rows, e.base.value, e.window.value)
    ensures LateHolds(e) <==>
            e.late == Late(Some("verifier"), Some(13), Some(e.base.value + Hash("verifier") % (e.window.value + 1)),
                           Some(e.base.value + 13 * e.window.value), true, true)
  {
    hide Hash, ByName, RowsAreKeepers, RowsArePositions, REQUIRED;
    NamesAreRequired(e.rows);
    VerifierIsRequired();
    assert "verifier" in Members(REQUIRED);
    ByNameIsRow(e.rows, "verifier");
    var i :| 0 <= i < |e.rows| && e.rows[i] == Some(ByName(e.rows)["verifier"]);
    assert FairRow(e.rows[i], e.base.value, e.window.value);
  }

  lemma {:induction false} WarmupsWithin(rows: seq<Option<Row>>, base: int, window: int)
    requires window >= 0 && forall i :: 0 <= i < |rows| ==> FairRow(rows[i], base, window)
    ensures |Warmups(rows)| == |rows| && forall i :: 0 <= i < |rows| ==> Warmups(rows)[i] <= base + window
  {
    hide Hash;
    if rows != [] {
      WarmupsWithin(rows[..|rows| - 1], base, window);
    }
  }

  lemma RowsAreFair(e: Evidence)
    requires DelaysHold(e)
    ensures RowsHold(e) <==> FairRows(e.rows, e.base.value, e.window.value)
  {
    hide Sort, Positions, Warmups, NoNameTwice, ByName, RowOk, FairRow, REQUIRED;
    var base, window := e.base.value, e.window.value;
    forall r
      ensures RowOk(r, e.base, e.window, e.maxDelay) <==> FairRow(r, base, window)
    {
      RowIsFair(r, base, window);
    }
    VerifierIsRequired();
    if RowsHold(e) {
      KeepersBiject(e);
      PositionsBiject(e.rows);
    }
    if FairRows(e.rows, base, window) {
      NamesAreRequired(e.rows);
      PositionsSort(e.rows);
      WarmupsWithin(e.rows, base, window);
    }
  }

  /** Evidence is accepted exactly if it is fair. */
  lemma RecordedIffFair(e: Evidence, catalogId: Option<string>)
    ensures Recorded(e, catalogId) <==> Fair(e, catalogId)
  {
    hide RowsHold, LateHolds, ClaimsHold, FairRows, Recorded, GOOD_CLAIMS;
    RecordedIffWindow(e, catalogId);
    ClaimsAreGood(e.claims);
    if DelaysHold(e) {
      RowsAreFair(e);
      if RowsHold(e) {
        LateIsVerifier(e);
      }
    }
  }
}
