/** What each field of an inventory report says, in terms of the sources and the winning rows. */
module InventoryMeaning {
  import opened Inventory
  import opened InventoryReport
  import opened Lists
  import opened RowTally
  import opened Sorting
  import opened Text

  // ---- counts per key ----

  ghost predicate Rising(items: seq<KeyCount>) {
    forall i, j :: 0 <= i < j < |items| ==> items[i].key != items[j].key && StrLe(items[i].key, items[j].key)
  }

  // The winners by the path they stand in, and by the rule that found them.
  ghost predicate CountedByFile(items: seq<KeyCount>, winners: map<string, Candidate>) {
    && Rising(items)
    && (forall k :: k in items ==> k.rows == |set id | id in winners && winners[id].path == k.key| > 0)
    && forall id :: id in winners ==> exists k :: k in items && k.key == winners[id].path
  }

  ghost predicate CountedByRule(items: seq<KeyCount>, winners: map<string, Candidate>) {
    && Rising(items)
    && (forall k :: k in items ==> k.rows == |set id | id in winners && winners[id].rule == k.key| > 0)
    && forall id :: id in winners ==> exists k :: k in items && k.key == winners[id].rule
  }

  lemma TallyByFile(items: seq<KeyCount>, winners: map<string, Candidate>)
    requires Tally(items, winners, FileOf()) && InOrder(items)
    ensures CountedByFile(items, winners)
  {
    forall k | k in items
      ensures k.rows == |set id | id in winners && winners[id].path == k.key| > 0
    {
      assert Matching(winners, ByKey(FileOf(), k.key)) == set id | id in winners && winners[id].path == k.key;
    }
    forall id | id in winners
      ensures exists k :: k in items && k.key == winners[id].path
    {
      var i :| 0 <= i < |items| && items[i].key == FileOf()(winners[id]);
      assert items[i] in items;
    }
  }

  lemma TallyByRule(items: seq<KeyCount>, winners: map<string, Candidate>)
    requires Tally(items, winners, RuleOf()) && InOrder(items)
    ensures CountedByRule(items, winners)
  {
    forall k | k in items
      ensures k.rows == |set id | id in winners && winners[id].rule == k.key| > 0
    {
      assert Matching(winners, ByKey(RuleOf(), k.key)) == set id | id in winners && winners[id].rule == k.key;
    }
    forall id | id in winners
      ensures exists k :: k in items && k.key == winners[id].rule
    {
      var i :| 0 <= i < |items| && items[i].key == RuleOf()(winners[id]);
      assert items[i] in items;
    }
  }

  // ---- sources that cannot be read ----

  lemma {:induction false} ErrorsSay(sources: seq<Source>)
    ensures forall e :: e in Errors(sources) <==>
                        exists s :: s in sources && s.lines.None? && e == SourceError(s.path, s.error)
    ensures |Errors(sources)| == CountIf(sources, Unread())
  {
    if sources != [] {
      var t, s := sources[..|sources| - 1], sources[|sources| - 1];
      ErrorsSay(t);
      assert forall x :: x in sources <==> x in t || x == s;
    }
  }

  function Unread(): Source -> bool { (s: Source) => s.lines.None? }

  // ---- sources without rows ----

  // Source k is the last readable one under the path.
  ghost predicate LastRead(sources: seq<Source>, k: nat, path: string) {
    && k < |sources| && sources[k].path == path && sources[k].lines.Some?
    && forall j :: k < j < |sources| && sources[j].lines.Some? ==> sources[j].path != path
  }

  // Markers are those of the last readable source under the path, and references go with them if there are any.
  ghost predicate DetailSays(d: Detail, path: string, sources: seq<Source>, run: Run) {
    && d.path == path
    && (d.markers.Some? <==> exists s :: s in sources && s.path == path && s.lines.Some?)
    && (forall k: nat :: LastRead(sources, k, path) ==> d.markers == Some(MarkersOf(sources[k].lines.value)))
    && (d.refs.Some? <==> d.markers.Some? && d.markers.value.total > 0)
    && (d.refs.Some? ==> d.refs.value == Filter(run.refs, run.isRef))
  }

  lemma LastReadStep(t: seq<Source>, s: Source, path: string)
    ensures s.lines.Some? && s.path == path ==> forall k: nat :: LastRead(t + [s], k, path) <==> k == |t|
    ensures !(s.lines.Some? && s.path == path) ==>
              forall k: nat :: LastRead(t + [s], k, path) <==> LastRead(t, k, path)
  {
    var sources := t + [s];
    assert forall j :: 0 <= j < |t| ==> sources[j] == t[j];
    assert sources[|t|] == s;
  }

  lemma {:induction false} MarkersSay(sources: seq<Source>, path: string)
    ensures path in MarkersBySource(sources) <==> exists s :: s in sources && s.path == path && s.lines.Some?
    ensures forall k: nat :: LastRead(sources, k, path) ==>
              && k < |sources| && sources[k].lines.Some?
              && path in MarkersBySource(sources) && MarkersBySource(sources)[path] == MarkersOf(sources[k].lines.value)
  {
    if sources == [] {
      assert forall k: nat :: !LastRead(sources, k, path);
    } else {
      var t, s, n := sources[..|sources| - 1], sources[|sources| - 1], |sources| - 1;
      assert sources == t + [s];
      hide MarkersOf, LastRead;
      MarkersSay(t, path);
      LastReadStep(t, s, path);
      assert forall x :: x in sources <==> x in t || x == s;
    }
  }

  lemma DetailMeans(path: string, sources: seq<Source>, run: Run)
    ensures DetailSays(DetailOf(path, MarkersBySource(sources), Filter(run.refs, run.isRef)), path, sources, run)
  {
    hide MarkersOf, Filter, MarkersBySource, LastRead;
    MarkersSay(sources, path);
  }

  lemma {:induction false} MarkersAddUp(a: seq<Detail>, b: seq<Detail>)
    ensures TotalMarkers(a + b) == TotalMarkers(a) + TotalMarkers(b)
    ensures forall d :: TotalMarkers([d]) == if d.markers.Some? then d.markers.value.total else 0
  {
    if b == [] {
      assert a + b == a;
    } else {
      MarkersAddUp(a, b[..|b| - 1]);
      assert (a + b)[..|a + b| - 1] == a + b[..|b| - 1];
    }
  }

  // ---- the dates ----

  // A claim is one of a readable source, and each later date of such a source is claimed.
  lemma {:induction false} ClaimsSay(sources: seq<Source>, checkedAt: Date)
    ensures forall c :: c in AllClaims(sources, Some(checkedAt)) <==>
              exists s :: s in sources && s.lines.Some?
                          && c in SourceClaims(s.lines.value, s.path, checkedAt, |s.lines.value|)
  {
    hide SourceClaims;
    if sources != [] {
      var t, s := sources[..|sources| - 1], sources[|sources| - 1];
      ClaimsSay(t, checkedAt);
      assert forall x :: x in sources <==> x in t || x == s;
    }
  }

  lemma {:induction false} ClaimsConcat(a: seq<Source>, b: seq<Source>, checkedAt: Option<Date>)
    ensures AllClaims(a + b, checkedAt) == AllClaims(a, checkedAt) + AllClaims(b, checkedAt)
  {
    hide SourceClaims;
    if b == [] {
      assert a + b == a;
    } else {
      ClaimsConcat(a, b[..|b| - 1], checkedAt);
      assert (a + b)[..|a + b| - 1] == a + b[..|b| - 1];
    }
  }

  // What a claim of the report says: its line names the later date, and its words decide about it.
  ghost predicate ClaimOfSources(c: Claim, sources: seq<Source>, checkedAt: Date) {
    exists s :: s in sources && s.lines.Some? && s.path == c.path && 1 <= c.line <= |s.lines.value|
                && c.date in s.lines.value[c.line - 1].dates && c.date > checkedAt
                && c.snippet == Strip(s.lines.value[c.line - 1].text)
                && Classified(c.kind, c.blocking, s.lines.value[c.line - 1].text)
  }

  ghost predicate Dated(s: Source, n: nat, d: Date) {
    s.lines.Some? && 1 <= n <= |s.lines.value| && d in s.lines.value[n - 1].dates
  }

  ghost predicate CurrentnessSays(now: Currentness, sources: seq<Source>, checkedAt: Option<Date>) {
    && now.checkedAt == checkedAt
    && (checkedAt.None? ==> now.claims == [])
    && (checkedAt.Some? ==>
          && (forall c :: c in now.claims ==> ClaimOfSources(c, sources, checkedAt.value))
          && forall s, n, d: Date :: s in sources && Dated(s, n, d) && d > checkedAt.value ==>
               exists c :: c in now.claims && c.path == s.path && c.line == n && c.date == d)
    && now.claimsTotal == |now.claims|
    && now.blockingTotal == |set i | 0 <= i < |now.claims| && now.claims[i].blocking|
    && Sorted(now.sources, set c | c in now.claims :: c.path) && now.sourcesTotal == |now.sources|
    && Sorted(now.blockingSources, set c | c in now.claims && c.blocking :: c.path)
    && now.blockingSourcesTotal == |now.blockingSources|
    && (now.current <==> checkedAt.Some? ==> forall c :: c in now.claims ==> !c.blocking)
  }

  lemma LineDates(lines: seq<Line>, path: string, checkedAt: Date, n: nat)
    requires 1 <= n <= |lines|
    ensures DatesOf(Filter(SourceClaims(lines, path, checkedAt, |lines|), AtLine(n))) ==
            Filter(lines[n - 1].dates, After(checkedAt))
  {
    hide *;
    SourceClaimsSay(lines, path, checkedAt, |lines|);
  }

  lemma ClaimSays(lines: seq<Line>, path: string, checkedAt: Date, c: Claim)
    requires c in SourceClaims(lines, path, checkedAt, |lines|)
    ensures && 1 <= c.line <= |lines| && c.path == path && c.snippet == Strip(lines[c.line - 1].text)
            && Classified(c.kind, c.blocking, lines[c.line - 1].text)
  {
    hide *;
    SourceClaimsSay(lines, path, checkedAt, |lines|);
  }

  lemma DatesClaimed(lines: seq<Line>, path: string, checkedAt: Date, c: Claim)
    requires c in SourceClaims(lines, path, checkedAt, |lines|)
    ensures 1 <= c.line <= |lines| && c.date in lines[c.line - 1].dates && c.date > checkedAt
  {
    hide SourceClaims, Classified, Filter, Strip;
    ClaimSays(lines, path, checkedAt, c);
    LineDates(lines, path, checkedAt, c.line);
    var all := SourceClaims(lines, path, checkedAt, |lines|);
    var here := Filter(all, AtLine(c.line));
    FilterMembers(all, AtLine(c.line));
    var i :| 0 <= i < |here| && here[i] == c;
    assert DatesOf(here)[i] == c.date;
    assert c.date in DatesOf(here);
    FilterMembers(lines[c.line - 1].dates, After(checkedAt));
  }

  lemma LaterDateClaimed(lines: seq<Line>, path: string, checkedAt: Date, n: nat, d: Date) returns (c: Claim)
    requires 1 <= n <= |lines| && d in lines[n - 1].dates && d > checkedAt
    ensures c in SourceClaims(lines, path, checkedAt, |lines|) && c.line == n && c.date == d && c.path == path
  {
    hide SourceClaims, Classified, Filter, Strip;
    LineDates(lines, path, checkedAt, n);
    var all := SourceClaims(lines, path, checkedAt, |lines|);
    FilterMembers(lines[n - 1].dates, After(checkedAt));
    var here := Filter(all, AtLine(n));
    var i :| 0 <= i < |DatesOf(here)| && DatesOf(here)[i] == d;
    c := here[i];
    FilterMembers(all, AtLine(n));
    assert c in here;
    ClaimSays(lines, path, checkedAt, c);
  }

  lemma AllClaimsSay(sources: seq<Source>, checkedAt: Date)
    ensures forall c :: c in AllClaims(sources, Some(checkedAt)) ==> ClaimOfSources(c, sources, checkedAt)
    ensures forall s, n, d: Date :: s in sources && Dated(s, n, d) && d > checkedAt ==>
              exists c :: c in AllClaims(sources, Some(checkedAt)) && c.path == s.path && c.line == n && c.date == d
  {
    ClaimsSay(sources, checkedAt);
    hide AllClaims, SourceClaims, Classified, Strip;
    forall c | c in AllClaims(sources, Some(checkedAt))
      ensures ClaimOfSources(c, sources, checkedAt)
    {
      var s :| s in sources && s.lines.Some?
               && c in SourceClaims(s.lines.value, s.path, checkedAt, |s.lines.value|);
      DatesClaimed(s.lines.value, s.path, checkedAt, c);
      ClaimSays(s.lines.value, s.path, checkedAt, c);
    }
    forall s, n, d: Date | s in sources && Dated(s, n, d) && d > checkedAt
      ensures exists c :: c in AllClaims(sources, Some(checkedAt)) && c.path == s.path && c.line == n && c.date == d
    {
      var c := LaterDateClaimed(s.lines.value, s.path, checkedAt, n, d);
    }
  }

  lemma CurrentnessMeans(now: Currentness, sources: seq<Source>, checkedAt: Option<Date>)
    requires IsCurrentness(now, AllClaims(sources, checkedAt), checkedAt)
    ensures CurrentnessSays(now, sources, checkedAt)
  {
    if checkedAt.Some? {
      AllClaimsSay(sources, checkedAt.value);
    }
    hide AllClaims, ClaimOfSources, Dated, Sorted;
    CountsPlaces(now.claims, Blocks(), set i | 0 <= i < |now.claims| && now.claims[i].blocking);
    CountsSome(now.claims, Blocks());
    assert forall c :: Blocks()(c) <==> c.blocking;
    assert ClaimPaths(now.claims) == set c | c in now.claims :: c.path;
    assert BlockingPaths(now.claims) == set c | c in now.claims && c.blocking :: c.path;
  }

  // ---- the whole report ----

  ghost predicate ReportSays(r: Report, winners: map<string, Candidate>, sources: seq<Source>, run: Run) {
    && r.schema == 1 && r.inventoryId == "goal-loop-explicit-source-row-candidates-v1"
    && r.policy == run.policy && r.catalogId == run.catalogId && r.expected == run.expected
    && r.rows == |winners.Keys| && r.sourcesChecked == |sources|
    && (r.status == "COMPLETE" <==> r.rows == r.expected && r.errors == [])
    && (r.status != "COMPLETE" ==> r.status == "INCOMPLETE")
    && r.result == (if r.status == "COMPLETE" then "EXPLICIT_SOURCE_ROWS_MATCH_EXPECTED"
                    else "EXPLICIT_SOURCE_ROWS_INSUFFICIENT")
    && r.missing >= 0 && r.missing >= r.expected - r.rows && (r.missing == 0 || r.missing == r.expected - r.rows)
    && (forall e :: e in r.errors <==>
                    exists s :: s in sources && s.lines.None? && e == SourceError(s.path, s.error))
    && r.errorsTotal == |r.errors| == |set i | 0 <= i < |sources| && sources[i].lines.None?|
    && (forall p :: p in r.sources <==> exists s :: s in sources && s.path == p) && |r.sources| == |sources|
    && (forall i, j :: 0 <= i < j < |r.sources| ==> StrLe(r.sources[i], r.sources[j]))
    && CountedByFile(r.byFile, winners) && CountedByRule(r.byRule, winners)
    && r.sourcesWith == |set id | id in winners :: winners[id].path|
    && (forall p :: p in r.without <==>
                    (exists s :: s in sources && s.path == p) && forall id :: id in winners ==> winners[id].path != p)
    && (forall i, j :: 0 <= i < j < |r.without| ==> StrLe(r.without[i], r.without[j]))
    && r.sourcesWithout == |r.without| == |r.details|
    && (forall i :: 0 <= i < |r.details| ==> DetailSays(r.details[i], r.without[i], sources, run))
    && r.unstructuredSources ==
       |set i | 0 <= i < |r.details| && r.details[i].markers.Some? && r.details[i].markers.value.total > 0|
    && r.trackedSources ==
       |set i | 0 <= i < |r.details| && r.details[i].refs.Some? && r.details[i].refs.value != []|
    && r.unstructuredMarkers == TotalMarkers(r.details)
    && CurrentnessSays(r.currentness, sources, run.checkedAt)
    && (r.candidates.Some? <==> run.includeRows)
    && (run.includeRows ==> RowsListed(r.candidates.value, winners))
  }

  lemma PathMembers(sources: seq<Source>)
    ensures forall p :: p in Paths(sources) <==> exists s :: s in sources && s.path == p
  {
    forall s | s in sources
      ensures s.path in Paths(sources)
    {
      var i :| 0 <= i < |sources| && sources[i] == s;
      assert Paths(sources)[i] == s.path;
    }
    assert forall i :: 0 <= i < |sources| ==> sources[i] in sources;
  }

  lemma ListsSay(r: Report, winners: map<string, Candidate>, sources: seq<Source>)
    requires r.sources == Sort(Ascending(), Paths(sources))
    requires r.without == Sort(Ascending(), Filter(Paths(sources), Lacks(WithRows(winners))))
    ensures forall p :: p in r.sources <==> exists s :: s in sources && s.path == p
    ensures |r.sources| == |sources|
    ensures forall i, j :: 0 <= i < j < |r.sources| ==> StrLe(r.sources[i], r.sources[j])
    ensures forall p :: p in r.without <==>
              (exists s :: s in sources && s.path == p) && forall id :: id in winners ==> winners[id].path != p
    ensures forall i, j :: 0 <= i < j < |r.without| ==> StrLe(r.without[i], r.without[j])
  {
    hide Sort, StrLe, Filter;
    SortStrings(Paths(sources));
    SortStrings(Filter(Paths(sources), Lacks(WithRows(winners))));
    FilterMembers(Paths(sources), Lacks(WithRows(winners)));
    PathMembers(sources);
    assert forall x, y :: Ascending()(x, y) == StrLe(x, y);
  }

  lemma DetailCounts(ds: seq<Detail>)
    requires forall d :: d in ds ==> (d.refs.Some? <==> d.markers.Some? && d.markers.value.total > 0)
    ensures CountIf(ds, HasMarkers()) ==
            |set i | 0 <= i < |ds| && ds[i].markers.Some? && ds[i].markers.value.total > 0|
    ensures CountIf(ds, HasTracking()) == |set i | 0 <= i < |ds| && ds[i].refs.Some? && ds[i].refs.value != []|
  {
    CountsPlaces(ds, HasMarkers(), set i | 0 <= i < |ds| && ds[i].markers.Some? && ds[i].markers.value.total > 0);
    CountsPlaces(ds, HasTracking(), set i | 0 <= i < |ds| && ds[i].refs.Some? && ds[i].refs.value != []);
  }

  lemma DetailsSay(r: Report, sources: seq<Source>, run: Run)
    requires |r.details| == |r.without|
    requires forall i :: 0 <= i < |r.without| ==>
               r.details[i] == DetailOf(r.without[i], MarkersBySource(sources), Filter(run.refs, run.isRef))
    ensures forall i :: 0 <= i < |r.details| ==> DetailSays(r.details[i], r.without[i], sources, run)
    ensures forall d :: d in r.details ==> (d.refs.Some? <==> d.markers.Some? && d.markers.value.total > 0)
  {
    hide Filter, MarkersBySource, DetailOf, LastRead, MarkersOf;
    forall i | 0 <= i < |r.details|
      ensures DetailSays(r.details[i], r.without[i], sources, run)
    {
      DetailMeans(r.without[i], sources, run);
    }
  }

  lemma RowCounts(r: Report, winners: map<string, Candidate>, sources: seq<Source>, run: Run)
    requires IsInventory(r, winners, sources, run)
    ensures CountedByFile(r.byFile, winners) && CountedByRule(r.byRule, winners)
    ensures r.sourcesWith == |set id | id in winners :: winners[id].path|
    ensures forall e :: e in r.errors <==>
                        exists s :: s in sources && s.lines.None? && e == SourceError(s.path, s.error)
    ensures r.errorsTotal == |r.errors| == |set i | 0 <= i < |sources| && sources[i].lines.None?|
    ensures CurrentnessSays(r.currentness, sources, run.checkedAt)
  {
    hide Best, Tally, InOrder, IsCurrentness, Sort, Filter, AllClaims, AllCandidates, CountedByFile, CountedByRule,
         CurrentnessSays, Errors, DetailOf, MarkersBySource, CountIf, TotalMarkers, RowsListed, Paths;
    TallyByFile(r.byFile, winners);
    TallyByRule(r.byRule, winners);
    ErrorsSay(sources);
    CountsPlaces(sources, Unread(), set i | 0 <= i < |sources| && sources[i].lines.None?);
    CurrentnessMeans(r.currentness, sources, run.checkedAt);
  }

  /** Field by field. */
  lemma ReportMeans(r: Report, winners: map<string, Candidate>, sources: seq<Source>, run: Run)
    requires IsInventory(r, winners, sources, run)
    ensures ReportSays(r, winners, sources, run)
  {
    hide Best, Tally, InOrder, IsCurrentness, Sort, Filter, AllClaims, AllCandidates, CountedByFile, CountedByRule,
         CurrentnessSays, Errors, DetailOf, MarkersBySource, CountIf, TotalMarkers, RowsListed, DetailSays, WithRows,
         Paths, StrLe;
    RowCounts(r, winners, sources, run);
    ListsSay(r, winners, sources);
    DetailsSay(r, sources, run);
    DetailCounts(r.details);
  }
}
