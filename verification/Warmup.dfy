/** Autoboot warmup fairness: the keeper name hash, and the evidence the completion audit accepts. */
module Warmup {
  import opened Sorting
  import opened Lists

  const MASK := 0x4000_0000

  // ---- the hash ----

  // The UTF-8 bytes of one character (section 3 of RFC 3629).
  function Bytes(c: char): (r: seq<int>)
    ensures forall i :: 0 <= i < |r| ==> 0 <= r[i] < 256
  {
    var n := c as int;
    if n < 0x80 then [n]
    else if n < 0x800 then [0xC0 + n / 0x40, 0x80 + n % 0x40]
    else if n < 0x1_0000 then [0xE0 + n / 0x1000, 0x80 + n / 0x40 % 0x40, 0x80 + n % 0x40]
    else [0xF0 + n / 0x4_0000, 0x80 + n / 0x1000 % 0x40, 0x80 + n / 0x40 % 0x40, 0x80 + n % 0x40]
  }

  function Encode(s: string): (r: seq<int>)
    ensures forall i :: 0 <= i < |r| ==> 0 <= r[i] < 256
  {
    if s == [] then [] else Bytes(s[0]) + Encode(s[1..])
  }

  function Power(n: nat): nat {
    if n == 0 then 1 else 33 * Power(n - 1)
  }

  // The sum of the first k bytes, each times 33 to the number of bytes after it.
  function WeightedSum(bytes: seq<int>, k: nat): int
    requires k <= |bytes|
  {
    if k == 0 then 0 else WeightedSum(bytes, k - 1) + bytes[k - 1] * Power(|bytes| - k)
  }

  function Polynomial(bytes: seq<int>): int {
    5381 * Power(|bytes|) + WeightedSum(bytes, |bytes|)
  }

  lemma {:induction false} WeightsShift(bytes: seq<int>, b: int, k: nat)
    requires k <= |bytes|
    ensures WeightedSum(bytes + [b], k) == 33 * WeightedSum(bytes, k)
  {
    if k > 0 {
      WeightsShift(bytes, b, k - 1);
      var w, x := Power(|bytes| - k), bytes[k - 1];
      assert Power(|bytes| + 1 - k) == 33 * w;
      assert (bytes + [b])[k - 1] == x;
      assert x * (33 * w) == 33 * (x * w);
    }
  }

  lemma PolynomialStep(bytes: seq<int>, b: int)
    ensures Polynomial(bytes + [b]) == 33 * Polynomial(bytes) + b
  {
    WeightsShift(bytes, b, |bytes|);
    assert Power(0) == 1;
  }

  lemma MaskedStep(acc: int, p: int, b: int)
    requires acc == p % MASK
    ensures (acc * 32 + acc + b) % MASK == (33 * p + b) % MASK
  {
    var q := p / MASK;
    assert 33 * p + b == (33 * acc + b) + (33 * q) * MASK;
    AddMultiple(33 * acc + b, 33 * q);
  }

  lemma AddMultiple(x: int, k: int)
    ensures (x + k * MASK) % MASK == x % MASK
  {
    var y := x + k * MASK;
    assert y == (x / MASK + k) * MASK + x % MASK;
    DivisionIsUnique(y, x / MASK + k, x % MASK);
  }

  lemma DivisionIsUnique(y: int, q: int, r: int)
    requires y == q * MASK + r && 0 <= r < MASK
    ensures y % MASK == r
  {
  }

  /** stable_keeper_name_hash: a loop over the bytes, masked to thirty bits at every step. */
  method StableKeeperNameHash(name: string) returns (acc: int)
    ensures acc == Polynomial(Encode(name)) % MASK
  {
    var bytes := Encode(name);
    acc := 5381;
    assert Polynomial([]) == 5381;
    for i := 0 to |bytes|
      invariant acc == Polynomial(bytes[..i]) % MASK
    {
      hide Polynomial;
      PolynomialStep(bytes[..i], bytes[i]);
      MaskedStep(acc, Polynomial(bytes[..i]), bytes[i]);
      assert bytes[..i + 1] == bytes[..i] + [bytes[i]];
      acc := (acc * 32 + acc + bytes[i]) % MASK;
    }
    assert bytes[..|bytes|] == bytes;
  }

  function Hash(name: string): int {
    Polynomial(Encode(name)) % MASK
  }

  // ---- the evidence ----

  const REQUIRED: seq<string> := [
    "analyst", "executor", "glm-coding-plan", "issue_king", "janitor", "masc-improver", "nick0cave", "qa-king",
    "ramarama", "sangsu", "scholar", "taskmaster", "velvet-hammer", "verifier"]

  // A keeper row; a field is absent if the evidence gives none of its type.
  datatype Row = Row(name: Option<string>, nameHash: Option<int>, jitter: Option<int>, warmup: Option<int>,
                     position: Option<int>, withinBound: bool)

  datatype Late = Late(name: Option<string>, position: Option<int>, warmup: Option<int>, claimedLinear: Option<int>,
                       bounded: bool, notPosition: bool)

  // The parts of the evidence that are only compared with fixed values.
  datatype Claims = Claims(schemaVersion: int, status: string, algorithm: string, positionIndependent: bool,
                           replayStatus: string, replayStable: bool, distinctWarmups: Option<int>, replayRef: bool,
                           turnStatus: string, turnBlocked: bool, turnDispatched: bool, turnRef: bool,
                           prRefs: nat, leaks: bool)

  // A row that is no object is absent.
  datatype Evidence = Evidence(catalogId: Option<string>, base: Option<int>, window: Option<int>, maxDelay: Option<int>,
                               rows: seq<Option<Row>>, late: Late, claims: Claims)

  predicate ClaimsHold(c: Claims) {
    && c.schemaVersion == 1 && c.status == "PASS" && c.algorithm == "int32_djb2_bounded_jitter" && c.positionIndependent
    && c.replayStatus == "PASS" && c.replayStable && c.distinctWarmups.Some? && c.distinctWarmups.value >= 3
    && c.replayRef
    && c.turnStatus == "PASS" && c.turnBlocked && c.turnDispatched && c.turnRef
    && c.prRefs >= 3 && !c.leaks
  }

  predicate Named(r: Option<Row>) {
    r.Some? && r.value.name.Some?
  }

  function Jitter(name: string, window: int): int
    requires window >= 0
  {
    if window == 0 then 0 else Hash(name) % (window + 1)
  }

  predicate WithinBound(r: Row, base: int, maxDelay: Option<int>) {
    r.warmup.Some? && maxDelay.Some? && base <= r.warmup.value <= maxDelay.value
  }

  // A row that the audit finds nothing wrong with.
  predicate RowOk(r: Option<Row>, base: Option<int>, window: Option<int>, maxDelay: Option<int>) {
    && Named(r)
    && (base.Some? && window.Some? && window.value >= 0 ==>
          var row, name := r.value, r.value.name.value;
          && row.nameHash == Some(Hash(name))
          && row.jitter == Some(Jitter(name, window.value))
          && row.warmup == Some(base.value + Jitter(name, window.value))
          && WithinBound(row, base.value, maxDelay)
          && row.withinBound)
  }

  function Positions(rows: seq<Option<Row>>): seq<int> {
    if rows == [] then [] else
      var r := rows[|rows| - 1];
      Positions(rows[..|rows| - 1]) + if Named(r) && r.value.position.Some? then [r.value.position.value] else []
  }

  function Warmups(rows: seq<Option<Row>>): seq<int> {
    if rows == [] then [] else
      var r := rows[|rows| - 1];
      Warmups(rows[..|rows| - 1]) + if Named(r) && r.value.warmup.Some? then [r.value.warmup.value] else []
  }

  // Of several rows with the same name the last one stays.
  function ByName(rows: seq<Option<Row>>): map<string, Row> {
    if rows == [] then map[] else
      var r := rows[|rows| - 1];
      var before := ByName(rows[..|rows| - 1]);
      if Named(r) then before[r.value.name.value := r.value] else before
  }

  ghost predicate NoNameTwice(rows: seq<Option<Row>>) {
    forall i, j :: 0 <= i < j < |rows| && Named(rows[i]) && Named(rows[j]) ==> rows[i].value.name != rows[j].value.name
  }

  function AtMost(): (int, int) -> bool {
    (a: int, b: int) => a <= b
  }

  function HasPosition(): Option<Row> -> bool {
    (r: Option<Row>) => r.Some? && r.value.position.Some?
  }

  // Rows are compared by position; a row without one never gets here.
  function PositionOf(r: Option<Row>): int {
    if r.Some? && r.value.position.Some? then r.value.position.value else 0
  }

  function ByPosition(): (Option<Row>, Option<Row>) -> bool {
    (a: Option<Row>, b: Option<Row>) => PositionOf(a) <= PositionOf(b)
  }

  function ObservedWarmups(rows: seq<Option<Row>>): seq<int> {
    if rows == [] then [] else
      var r := rows[|rows| - 1];
      ObservedWarmups(rows[..|rows| - 1]) + if r.Some? && r.value.warmup.Some? then [r.value.warmup.value] else []
  }

  function LinearSequence(base: int, window: int): seq<int> {
    seq(|REQUIRED|, i => base + i * window)
  }

  // Ordered by position, the warmups are the ones a delay per position would give.
  predicate LinearDetected(e: Evidence) {
    && e.base.Some? && e.window.Some?
    && ObservedWarmups(Sort(ByPosition(), Filter(e.rows, HasPosition())))
       == LinearSequence(e.base.value, e.window.value)
  }

  function LateWarmup(e: Evidence): Option<int> {
    if e.late.name.Some? && e.late.name.value in ByName(e.rows) then ByName(e.rows)[e.late.name.value].warmup else None
  }

  predicate LateHolds(e: Evidence) {
    && e.late.name == Some("verifier") && e.late.position == Some(13)
    && e.late.warmup == LateWarmup(e)
    && e.base.Some? && e.window.Some? && e.late.claimedLinear == Some(e.base.value + 13 * e.window.value)
    && (e.maxDelay.Some? ==> LateWarmup(e).Some? && LateWarmup(e).value <= e.maxDelay.value)
    && e.late.bounded && e.late.notPosition
  }

  predicate DelaysHold(e: Evidence) {
    && e.base.Some? && e.base.value >= 0
    && e.window.Some? && e.window.value >= 0
    && e.maxDelay == Some(e.base.value + e.window.value)
  }

  ghost predicate RowsHold(e: Evidence) {
    && NoNameTwice(e.rows)
    && ByName(e.rows).Keys == Members(REQUIRED)
    && |e.rows| == |REQUIRED|
    && (forall i :: 0 <= i < |e.rows| ==> RowOk(e.rows[i], e.base, e.window, e.maxDelay))
    && Sort(AtMost(), Positions(e.rows)) == seq(|REQUIRED|, i => i)
    && (e.maxDelay.Some? ==>
          Warmups(e.rows) != [] && forall i :: 0 <= i < |Warmups(e.rows)| ==> Warmups(e.rows)[i] <= e.maxDelay.value)
  }

  ghost predicate Recorded(e: Evidence, catalogId: Option<string>) {
    && ClaimsHold(e.claims)
    && catalogId.Some? && e.catalogId == catalogId
    && DelaysHold(e)
    && RowsHold(e)
    && !LinearDetected(e)
    && LateHolds(e)
  }

  // ---- the audit ----

  method CheckRow(row: Row, name: string, base: int, window: int, maxDelay: Option<int>) returns (wrong: bool)
    requires window >= 0 && row.name == Some(name)
    ensures wrong <==> !RowOk(Some(row), Some(base), Some(window), maxDelay)
  {
    hide Polynomial, Encode;
    var hash := StableKeeperNameHash(name);
    assert hash == Hash(name);
    var jitter := if window == 0 then 0 else hash % (window + 1);
    wrong := false;
    if row.nameHash != Some(hash) {
      wrong := true;
    }
    if row.jitter != Some(jitter) {
      wrong := true;
    }
    if row.warmup != Some(base + jitter) {
      wrong := true;
    }
    if row.warmup.None? || maxDelay.None? {
      wrong := true;
    } else if !(base <= row.warmup.value <= maxDelay.value) {
      wrong := true;
    }
    if !row.withinBound {
      wrong := true;
    }
  }

  lemma RowsGrow(rows: seq<Option<Row>>, r: Option<Row>)
    ensures ByName(rows + [r]) == if Named(r) then ByName(rows)[r.value.name.value := r.value] else ByName(rows)
    ensures Warmups(rows + [r]) ==
            Warmups(rows) + if Named(r) && r.value.warmup.Some? then [r.value.warmup.value] else []
    ensures Positions(rows + [r]) ==
            Positions(rows) + if Named(r) && r.value.position.Some? then [r.value.position.value] else []
  {
    assert (rows + [r])[..|rows|] == rows;
  }

  ghost predicate SomeWrong(rows: seq<Option<Row>>, base: Option<int>, window: Option<int>, maxDelay: Option<int>) {
    exists i :: 0 <= i < |rows| && !RowOk(rows[i], base, window, maxDelay)
  }

  lemma WrongGrows(rows: seq<Option<Row>>, r: Option<Row>, base: Option<int>, window: Option<int>,
                   maxDelay: Option<int>)
    ensures SomeWrong(rows + [r], base, window, maxDelay) <==>
            SomeWrong(rows, base, window, maxDelay) || !RowOk(r, base, window, maxDelay)
  {
    hide RowOk;
    var all := rows + [r];
    assert all[|rows|] == r;
    if i :| 0 <= i < |rows| && !RowOk(rows[i], base, window, maxDelay) {
      assert all[i] == rows[i];
    }
  }

  method CheckRows(e: Evidence)
    returns (byName: map<string, Row>, repeated: bool, wrong: bool, warmups: seq<int>, positions: seq<int>)
    ensures byName == ByName(e.rows) && warmups == Warmups(e.rows) && positions == Positions(e.rows)
    ensures repeated <==> !NoNameTwice(e.rows)
    ensures wrong <==> exists i :: 0 <= i < |e.rows| && !RowOk(e.rows[i], e.base, e.window, e.maxDelay)
  {
    hide RowOk;
    byName, repeated, wrong, warmups, positions := map[], false, false, [], [];
    for i := 0 to |e.rows|
      invariant byName == ByName(e.rows[..i]) && warmups == Warmups(e.rows[..i]) && positions == Positions(e.rows[..i])
      invariant repeated <==> !NoNameTwice(e.rows[..i])
      invariant wrong <==> SomeWrong(e.rows[..i], e.base, e.window, e.maxDelay)
    {
      var r := e.rows[i];
      assert e.rows[..i + 1] == e.rows[..i] + [r];
      hide ByName, Warmups, Positions, NoNameTwice, SomeWrong;
      NamesGrow(e.rows[..i], r);
      RowsGrow(e.rows[..i], r);
      WrongGrows(e.rows[..i], r, e.base, e.window, e.maxDelay);
      var bad := CheckOne(r, e.base, e.window, e.maxDelay);
      if bad {
        wrong := true;
      }
      if Named(r) {
        var row := r.value;
        if row.name.value in byName {
          repeated := true;
        }
        byName := byName[row.name.value := row];
        if row.position.Some? {
          positions := positions + [row.position.value];
        }
        if row.warmup.Some? {
          warmups := warmups + [row.warmup.value];
        }
      }
    }
    assert e.rows[..|e.rows|] == e.rows;
  }

  method CheckOne(r: Option<Row>, base: Option<int>, window: Option<int>, maxDelay: Option<int>) returns (wrong: bool)
    ensures wrong <==> !RowOk(r, base, window, maxDelay)
  {
    if !Named(r) {
      return true;
    }
    if base.None? || window.None? || window.value < 0 {
      return false;
    }
    wrong := CheckRow(r.value, r.value.name.value, base.value, window.value, maxDelay);
  }

  lemma {:induction false} NamesAreRows(rows: seq<Option<Row>>)
    ensures forall n :: n in ByName(rows) <==>
            exists i :: 0 <= i < |rows| && Named(rows[i]) && rows[i].value.name == Some(n)
  {
    if rows != [] {
      var t, r := rows[..|rows| - 1], rows[|rows| - 1];
      NamesAreRows(t);
      assert rows == t + [r];
      forall n
        ensures n in ByName(rows) <==> exists i :: 0 <= i < |rows| && Named(rows[i]) && rows[i].value.name == Some(n)
      {
        if n in ByName(t) {
          var i :| 0 <= i < |t| && Named(t[i]) && t[i].value.name == Some(n);
          assert rows[i] == t[i];
        }
        if i :| 0 <= i < |rows| && Named(rows[i]) && rows[i].value.name == Some(n) && rows[i] != r {
          assert t[i] == rows[i];
        }
      }
    }
  }

  lemma NamesGrow(rows: seq<Option<Row>>, r: Option<Row>)
    ensures NoNameTwice(rows + [r]) <==> NoNameTwice(rows) && !(Named(r) && r.value.name.value in ByName(rows))
  {
    var all := rows + [r];
    NamesAreRows(rows);
    hide ByName;
    if NoNameTwice(all) {
      forall i, j | 0 <= i < j < |rows| && Named(rows[i]) && Named(rows[j])
        ensures rows[i].value.name != rows[j].value.name
      {
        assert all[i] == rows[i] && all[j] == rows[j];
      }
    }
    if Named(r) && r.value.name.value in ByName(rows) {
      var i :| 0 <= i < |rows| && Named(rows[i]) && rows[i].value.name == Some(r.value.name.value);
      assert all[i] == rows[i] && all[|rows|] == r;
    }
  }

  method MaxWithin(warmups: seq<int>, maxDelay: int) returns (within: bool)
    ensures within <==> warmups != [] && forall i :: 0 <= i < |warmups| ==> warmups[i] <= maxDelay
  {
    if warmups == [] {
      return false;
    }
    var top := warmups[0];
    for i := 0 to |warmups|
      invariant forall j :: 0 <= j < i ==> warmups[j] <= top
      invariant exists j :: 0 <= j < |warmups| && warmups[j] == top
    {
      if warmups[i] > top {
        top := warmups[i];
      }
    }
    within := top <= maxDelay;
  }

  /** autoboot_warmup_fairness_evidence */
  method AuditWarmup(e: Evidence, catalogId: Option<string>) returns (recorded: bool)
    ensures recorded <==> Recorded(e, catalogId)
  {
    hide RowOk, ClaimsHold, NoNameTwice, LinearDetected, Sort, Positions, Warmups, ByName;
    var byName, repeated, wrong, warmups, positions := CheckRows(e);
    var within := true;
    if e.maxDelay.Some? {
      within := MaxWithin(warmups, e.maxDelay.value);
    }
    var required := set k | k in REQUIRED;
    recorded := ClaimsHold(e.claims)
                && catalogId.Some? && e.catalogId == catalogId
                && DelaysHold(e)
                && !repeated && !wrong && byName.Keys == required && |e.rows| == |REQUIRED|
                && Sort(AtMost(), positions) == seq(|REQUIRED|, i => i)
                && within
                && !LinearDetected(e)
                && LateHolds(e);
  }

  // ---- what accepted evidence shows ----

  // Each row is for a required keeper, and each required keeper has exactly one row.
  ghost predicate RowsAreKeepers(rows: seq<Option<Row>>) {
    && |rows| == |REQUIRED|
    && (forall i :: 0 <= i < |rows| ==> Named(rows[i]) && rows[i].value.name.value in REQUIRED)
    && NoNameTwice(rows)
    && forall n :: n in REQUIRED ==> exists i :: 0 <= i < |rows| && Named(rows[i]) && rows[i].value.name == Some(n)
  }

  // Each row has a boot position below the number of keepers, and each such position is some row's.
  ghost predicate RowsArePositions(rows: seq<Option<Row>>) {
    && (forall i :: 0 <= i < |rows| ==> HasPosition()(rows[i]) && 0 <= PositionOf(rows[i]) < |REQUIRED|)
    && (forall i, j :: 0 <= i < j < |rows| ==> PositionOf(rows[i]) != PositionOf(rows[j]))
    && forall p :: 0 <= p < |REQUIRED| ==> HasRowAt(rows, p)
  }

  ghost predicate HasRowAt(rows: seq<Option<Row>>, p: int) {
    exists i :: 0 <= i < |rows| && PositionOf(rows[i]) == p
  }

  // A keeper's delay depends on its name alone and stays within the window.
  predicate DelayedByName(r: Option<Row>, base: int, window: int) {
    && window >= 0 && Named(r)
    && r.value.warmup == Some(base + Hash(r.value.name.value) % (window + 1))
    && base <= r.value.warmup.value <= base + window
  }

  lemma {:induction false} PositionsFull(rows: seq<Option<Row>>)
    ensures |Positions(rows)| <= |rows|
    ensures |Positions(rows)| == |rows| ==>
              forall i :: 0 <= i < |rows| ==> HasPosition()(rows[i]) && Positions(rows)[i] == PositionOf(rows[i])
  {
    if rows != [] {
      PositionsFull(rows[..|rows| - 1]);
    }
  }

  lemma PositionsBiject(rows: seq<Option<Row>>)
    requires |rows| == |REQUIRED| && Sort(AtMost(), Positions(rows)) == seq(|REQUIRED|, i => i)
    ensures RowsArePositions(rows)
  {
    hide Sort, Positions;
    var ps, range := Positions(rows), seq(|REQUIRED|, i => i);
    SortSorts(AtMost(), ps);
    PositionsFull(rows);
    SameMembers(ps, range);
    DistinctPermutes(range, ps);
    forall i | 0 <= i < |rows|
      ensures 0 <= PositionOf(rows[i]) < |REQUIRED|
    {
      assert ps[i] in range;
    }
    forall p | 0 <= p < |REQUIRED|
      ensures HasRowAt(rows, p)
    {
      assert range[p] in ps;
      var i :| 0 <= i < |ps| && ps[i] == p;
      assert PositionOf(rows[i]) == p;
    }
  }

  lemma KeepersBiject(e: Evidence)
    requires RowsHold(e)
    ensures RowsAreKeepers(e.rows)
  {
    hide RowOk, Sort, Positions, Warmups, NoNameTwice, ByName;
    NamesAreRows(e.rows);
    forall i | 0 <= i < |e.rows|
      ensures Named(e.rows[i]) && e.rows[i].value.name.value in REQUIRED
    {
      OkIsNamed(e.rows[i], e.base, e.window, e.maxDelay);
      assert e.rows[i].value.name.value in ByName(e.rows).Keys;
    }
    forall n | n in REQUIRED
      ensures exists i :: 0 <= i < |e.rows| && Named(e.rows[i]) && e.rows[i].value.name == Some(n)
    {
      assert n in Members(REQUIRED);
      assert n in ByName(e.rows);
    }
  }

  lemma OkIsNamed(r: Option<Row>, base: Option<int>, window: Option<int>, maxDelay: Option<int>)
    requires RowOk(r, base, window, maxDelay)
    ensures Named(r)
  {
  }

  lemma OkIsDelayedByName(r: Option<Row>, base: int, window: int, maxDelay: Option<int>)
    requires window >= 0 && RowOk(r, Some(base), Some(window), maxDelay)
    ensures DelayedByName(r, base, window)
  {
    hide Hash;
  }

  lemma TotalByPosition()
    ensures TotalPreorder(ByPosition())
  {
  }

  lemma {:induction false} ObservedAreWarmups(rows: seq<Option<Row>>)
    ensures forall x :: x in ObservedWarmups(rows) ==> exists r :: r in rows && r.Some? && r.value.warmup == Some(x)
  {
    if rows != [] {
      var t, r := rows[..|rows| - 1], rows[|rows| - 1];
      assert rows == t + [r];
      ObservedAreWarmups(t);
    }
  }

  lemma {:induction false} ConstantWarmups(rows: seq<Option<Row>>, w: int)
    requires forall r :: r in rows ==> r.Some? && r.value.warmup == Some(w)
    ensures ObservedWarmups(rows) == seq(|rows|, i => w)
  {
    if rows != [] {
      ConstantWarmups(rows[..|rows| - 1], w);
    }
  }

  lemma SortKeepsRows(rows: seq<Option<Row>>, sorted: seq<Option<Row>>)
    requires sorted == Sort(ByPosition(), rows)
    ensures |sorted| == |rows| && forall r :: r in sorted ==> r in rows
  {
    hide Sort;
    TotalByPosition();
    SortSorts(ByPosition(), rows);
    SameMembers(sorted, rows);
  }

  // Among sound rows a linear sequence is found exactly if there is no window at all: within a window the last
  // position's linear delay is out of reach.
  lemma LinearIffNoWindow(e: Evidence)
    requires DelaysHold(e) && RowsHold(e)
    ensures LinearDetected(e) <==> e.window.value == 0
  {
    hide Sort, Positions, Warmups, NoNameTwice, ByName, ObservedWarmups, RowOk, Filter, DelayedByName, LinearSequence;
    PositionsBiject(e.rows);
    forall r | r in e.rows
      ensures HasPosition()(r) && DelayedByName(r, e.base.value, e.window.value)
    {
      var i :| 0 <= i < |e.rows| && e.rows[i] == r;
      OkIsDelayedByName(r, e.base.value, e.window.value, e.maxDelay);
    }
    FilterAll(e.rows, HasPosition());
    var sorted := Sort(ByPosition(), e.rows);
    SortKeepsRows(e.rows, sorted);
    forall r | r in sorted
      ensures DelayedByName(r, e.base.value, e.window.value)
    {
      assert r in e.rows;
    }
    if e.window.value == 0 {
      NoWindowIsLinear(sorted, e.base.value);
    } else {
      WindowIsNotLinear(sorted, e.base.value, e.window.value);
    }
  }

  lemma NoWindowIsLinear(rows: seq<Option<Row>>, base: int)
    requires |rows| == |REQUIRED| && forall r :: r in rows ==> DelayedByName(r, base, 0)
    ensures ObservedWarmups(rows) == LinearSequence(base, 0)
  {
    hide Hash;
    ConstantWarmups(rows, base);
  }

  lemma WindowIsNotLinear(rows: seq<Option<Row>>, base: int, window: int)
    requires window > 0 && forall r :: r in rows ==> DelayedByName(r, base, window)
    ensures ObservedWarmups(rows) != LinearSequence(base, window)
  {
    hide ObservedWarmups, Hash;
    ObservedAreWarmups(rows);
    var last := base + 13 * window;
    assert LinearSequence(base, window)[13] == last && last in LinearSequence(base, window);
    forall r | r in rows
      ensures r.Some? && r.value.warmup != Some(last)
    {
      assert DelayedByName(r, base, window);
    }
    assert last !in ObservedWarmups(rows);
  }

  /** Accepted evidence has one row per required keeper and one per boot position, with delays set by the names. */
  lemma RecordedMeans(e: Evidence, catalogId: Option<string>)
    requires Recorded(e, catalogId)
    ensures RowsAreKeepers(e.rows) && RowsArePositions(e.rows)
    ensures e.base.Some? && e.window.Some? && e.base.value >= 0 && e.window.value > 0
    ensures forall i :: 0 <= i < |e.rows| ==> DelayedByName(e.rows[i], e.base.value, e.window.value)
  {
    hide RowsHold, RowsAreKeepers, RowsArePositions, LinearDetected, RowOk, ClaimsHold, LateHolds, DelayedByName;
    KeepersBiject(e);
    RowsHoldParts(e);
    PositionsBiject(e.rows);
    LinearIffNoWindow(e);
    forall i | 0 <= i < |e.rows|
      ensures DelayedByName(e.rows[i], e.base.value, e.window.value)
    {
      OkIsDelayedByName(e.rows[i], e.base.value, e.window.value, e.maxDelay);
    }
  }

  lemma RowsHoldParts(e: Evidence)
    requires RowsHold(e)
    ensures |e.rows| == |REQUIRED| && Sort(AtMost(), Positions(e.rows)) == seq(|REQUIRED|, i => i)
    ensures forall i :: 0 <= i < |e.rows| ==> RowOk(e.rows[i], e.base, e.window, e.maxDelay)
  {
  }

  /** Whatever the boot order, accepted evidence with the same base and window gives a keeper the same delay. */
  lemma WarmupIgnoresOrder(e: Evidence, f: Evidence, catalogId: Option<string>, i: nat, j: nat)
    requires Recorded(e, catalogId) && Recorded(f, catalogId) && e.base == f.base && e.window == f.window
    requires i < |e.rows| && j < |f.rows| && Named(e.rows[i]) && Named(f.rows[j])
    requires e.rows[i].value.name == f.rows[j].value.name
    ensures e.rows[i].value.warmup == f.rows[j].value.warmup
  {
    hide Recorded, Hash, RowsAreKeepers, RowsArePositions;
    RecordedMeans(e, catalogId);
    RecordedMeans(f, catalogId);
    assert DelayedByName(e.rows[i], e.base.value, e.window.value);
    assert DelayedByName(f.rows[j], f.base.value, f.window.value);
  }

  /** The audit accepts exactly a positive window, besides what it asks of the header, the rows and the late keeper. */
  lemma RecordedIffWindow(e: Evidence, catalogId: Option<string>)
    ensures Recorded(e, catalogId) <==>
            && ClaimsHold(e.claims) && catalogId.Some? && e.catalogId == catalogId
            && DelaysHold(e) && RowsHold(e) && e.window.value > 0 && LateHolds(e)
  {
    hide RowsHold, LinearDetected, ClaimsHold, LateHolds;
    if DelaysHold(e) && RowsHold(e) {
      LinearIffNoWindow(e);
    }
  }

  // ---- honest evidence ----

  const GOOD_CLAIMS :=
    Claims(1, "PASS", "int32_djb2_bounded_jitter", true, "PASS", true, Some(3), true, "PASS", true, true, true, 3,
           false)

  function HonestRow(i: nat, base: int, window: nat): Option<Row>
    requires i < |REQUIRED|
  {
    var jitter := Jitter(REQUIRED[i], window);
    Some(Row(Some(REQUIRED[i]), Some(Hash(REQUIRED[i])), Some(jitter), Some(base + jitter), Some(i), true))
  }

  // What a scheduler with this base and window would record, booting the keepers in the order of their names.
  function Honest(catalogId: string, base: int, window: nat): Evidence {
    Evidence(Some(catalogId), Some(base), Some(window), Some(base + window),
             seq(|REQUIRED|, i requires 0 <= i < |REQUIRED| => HonestRow(i, base, window)),
             Late(Some("verifier"), Some(13), Some(base + Jitter("verifier", window)), Some(base + 13 * window), true,
                  true),
             GOOD_CLAIMS)
  }

  // The first three characters of a name as one number.
  function FirstThree(name: string): int
    requires |name| >= 3
  {
    name[0] as int * 1_000_000 + name[1] as int * 1_000 + name[2] as int
  }

  const CODES := [
    FirstThree("analyst"), FirstThree("executor"), FirstThree("glm-coding-plan"), FirstThree("issue_king"),
    FirstThree("janitor"), FirstThree("masc-improver"), FirstThree("nick0cave"), FirstThree("qa-king"),
    FirstThree("ramarama"), FirstThree("sangsu"), FirstThree("scholar"), FirstThree("taskmaster"),
    FirstThree("velvet-hammer"), FirstThree("verifier")]

  lemma CodesIncrease()
    ensures |CODES| == 14 && forall i :: 0 <= i < 13 ==> CODES[i] < CODES[i + 1]
  {
  }

  lemma CodesAreRequired()
    ensures |REQUIRED| == |CODES|
    ensures forall i :: 0 <= i < |REQUIRED| ==> |REQUIRED[i]| >= 3 && FirstThree(REQUIRED[i]) == CODES[i]
  {
    hide FirstThree;
  }

  lemma RequiredDistinct()
    ensures Distinct(REQUIRED)
  {
    hide REQUIRED, CODES, FirstThree;
    CodesAreRequired();
    CodesIncrease();
    var codes := CODES;
    forall i, j | 0 <= i < j < |REQUIRED|
      ensures REQUIRED[i] != REQUIRED[j]
    {
      Increasing(codes, i, j);
    }
  }

  lemma {:induction false} Increasing(s: seq<int>, i: nat, j: nat)
    requires i < j < |s| && forall k :: 0 <= k < |s| - 1 ==> s[k] < s[k + 1]
    ensures s[i] < s[j]
    decreases j
  {
    if i < j - 1 {
      Increasing(s, i, j - 1);
    }
  }

  lemma JitterInWindow(name: string, window: nat)
    ensures 0 <= Jitter(name, window) <= window
  {
    hide Hash;
  }

  lemma HonestRowOk(i: nat, base: int, window: nat)
    requires i < |REQUIRED|
    ensures RowOk(HonestRow(i, base, window), Some(base), Some(window), Some(base + window))
  {
    hide Hash, Jitter;
    JitterInWindow(REQUIRED[i], window);
  }

  lemma {:induction false} HonestLists(rows: seq<Option<Row>>, base: int, window: nat)
    requires |rows| <= |REQUIRED| && forall i :: 0 <= i < |rows| ==> rows[i] == HonestRow(i, base, window)
    ensures Positions(rows) == seq(|rows|, i => i)
    ensures |Warmups(rows)| == |rows| && forall i :: 0 <= i < |rows| ==> Warmups(rows)[i] <= base + window
  {
    hide Hash, Jitter;
    if rows != [] {
      HonestLists(rows[..|rows| - 1], base, window);
      JitterInWindow(REQUIRED[|rows| - 1], window);
    }
  }

  lemma HonestNames(catalogId: string, base: int, window: nat)
    ensures NoNameTwice(Honest(catalogId, base, window).rows)
    ensures ByName(Honest(catalogId, base, window).rows).Keys == Members(REQUIRED)
  {
    hide Hash, Jitter, ByName;
    var rows := Honest(catalogId, base, window).rows;
    RequiredDistinct();
    NamesAreRows(rows);
    forall n
      ensures n in ByName(rows) <==> n in REQUIRED
    {
      if n in REQUIRED {
        var i :| 0 <= i < |REQUIRED| && REQUIRED[i] == n;
        assert Named(rows[i]) && rows[i].value.name == Some(n);
      }
    }
  }

  lemma HonestRowsHold(catalogId: string, base: int, window: nat)
    ensures RowsHold(Honest(catalogId, base, window))
  {
    hide RowOk, ByName, NoNameTwice, Positions, Warmups, Sort, Jitter, Hash;
    var e := Honest(catalogId, base, window);
    HonestNames(catalogId, base, window);
    HonestLists(e.rows, base, window);
    SortedStays(AtMost(), seq(|REQUIRED|, i => i));
    forall i | 0 <= i < |e.rows|
      ensures RowOk(e.rows[i], e.base, e.window, e.maxDelay)
    {
      HonestRowOk(i, base, window);
    }
  }

  lemma HonestLateHolds(catalogId: string, base: int, window: nat)
    ensures LateHolds(Honest(catalogId, base, window))
  {
    hide Hash, Jitter;
    var e := Honest(catalogId, base, window);
    JitterInWindow("verifier", window);
    assert e.rows[|e.rows| - 1] == HonestRow(13, base, window);
    assert ByName(e.rows)["verifier"] == HonestRow(13, base, window).value;
  }

  /** Honest evidence meets everything but perhaps the linear check, so it is accepted exactly with a window. */
  lemma HonestAcceptedIffWindow(catalogId: string, base: nat, window: nat)
    ensures Recorded(Honest(catalogId, base, window), Some(catalogId)) <==> window > 0
  {
    hide RowsHold, LateHolds, LinearDetected, Recorded, Jitter, Hash;
    var e := Honest(catalogId, base, window);
    HonestRowsHold(catalogId, base, window);
    HonestLateHolds(catalogId, base, window);
    RecordedIffWindow(e, Some(catalogId));
  }

  // Honest evidence of a scheduler without a window: sound rows, a sound late keeper, and refused as linear.
  lemma NoWindowRefused()
    ensures var e := Honest("goal-loop", 60, 0);
            && ClaimsHold(e.claims) && DelaysHold(e) && RowsHold(e) && LateHolds(e) && LinearDetected(e)
            && !Recorded(e, Some("goal-loop"))
  {
    hide RowsHold, LateHolds, LinearDetected, Jitter, Hash;
    HonestRowsHold("goal-loop", 60, 0);
    HonestLateHolds("goal-loop", 60, 0);
    LinearIffNoWindow(Honest("goal-loop", 60, 0));
  }
}
