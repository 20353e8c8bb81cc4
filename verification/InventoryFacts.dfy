/** What the fields of an inventory report say of the sources it was made from. */
module InventoryFacts {
  import opened Inventory
  import opened InventoryReport
  import opened Lists
  import opened RowTally
  import opened Sorting

  ghost function FileKeys(items: seq<KeyCount>): set<string> {
    set i | 0 <= i < |items| :: items[i].key
  }

  // A source without winning rows in which some line is a heading, a table row, a numbered item or a bullet.
  ghost predicate NeedsTracking(s: Source, winners: map<string, Candidate>) {
    && (forall id :: id in winners ==> winners[id].path != s.path)
    && s.lines.Some?
    && exists l :: l in s.lines.value && (l.heading || l.tableRow || l.numbered || l.bullet)
  }

  lemma TrackingByMarkers(s: Source, winners: map<string, Candidate>)
    ensures NeedsTracking(s, winners) <==>
            s.path !in WithRows(winners) && s.lines.Some? && MarkersOf(s.lines.value).total > 0
  {
    if s.lines.Some? {
      MarkedIffSome(s.lines.value);
    }
  }

  lemma {:induction false} LineCandidatePaths(lines: seq<Line>, path: string, k: nat)
    requires k <= |lines|
    ensures forall c :: c in LinesCandidates(lines, path, k) ==> c.path == path
  {
    if k > 0 {
      LineCandidatePaths(lines, path, k - 1);
    }
  }

  lemma {:induction false} CandidatePaths(sources: seq<Source>)
    ensures forall c :: c in AllCandidates(sources) ==> c.path in Paths(sources)
  {
    if sources != [] {
      hide LinesCandidates;
      var t, s := sources[..|sources| - 1], sources[|sources| - 1];
      CandidatePaths(t);
      assert Paths(sources) == Paths(t) + [s.path];
      if s.lines.Some? {
        LineCandidatePaths(s.lines.value, s.path, |s.lines.value|);
      }
    }
  }

  lemma WinnersInSources(winners: map<string, Candidate>, sources: seq<Source>)
    requires Best(winners, AllCandidates(sources))
    ensures WithRows(winners) <= Members(Paths(sources))
  {
    hide AllCandidates;
    CandidatePaths(sources);
    forall p | p in WithRows(winners)
      ensures p in Paths(sources)
    {
      var id :| id in winners && winners[id].path == p;
      assert winners[id] in AllCandidates(sources);
    }
  }

  lemma FilesAreWithRows(items: seq<KeyCount>, winners: map<string, Candidate>)
    requires Tally(items, winners, FileOf())
    ensures FileKeys(items) == WithRows(winners)
  {
    forall i | 0 <= i < |items|
      ensures items[i].key in WithRows(winners)
    {
      assert Rows(winners, ByKey(FileOf(), items[i].key)) > 0;
      var id :| id in Matching(winners, ByKey(FileOf(), items[i].key));
    }
    forall p | p in WithRows(winners)
      ensures p in FileKeys(items)
    {
      var id :| id in winners && winners[id].path == p;
      assert HasKey(items, FileOf()(winners[id]));
    }
  }

  lemma WithoutRows(sources: seq<Source>, winners: map<string, Candidate>, without: seq<string>)
    requires without == Sort(Ascending(), Filter(Paths(sources), Lacks(WithRows(winners))))
    ensures Members(without) == Members(Paths(sources)) - WithRows(winners)
    ensures Distinct(Paths(sources)) ==> |Members(without)| == |without|
  {
    var some := Filter(Paths(sources), Lacks(WithRows(winners)));
    FilterMembers(Paths(sources), Lacks(WithRows(winners)));
    SortStrings(some);
    if Distinct(Paths(sources)) {
      FilterDistinct(Paths(sources), Lacks(WithRows(winners)));
      DistinctCount(without);
    }
  }

  lemma {:induction false} ReadableIffNoErrors(sources: seq<Source>)
    ensures Errors(sources) == [] <==> forall s :: s in sources ==> s.lines.Some?
  {
    if sources != [] {
      var t, s := sources[..|sources| - 1], sources[|sources| - 1];
      assert sources == t + [s];
      ReadableIffNoErrors(t);
    }
  }

  lemma {:induction false} MarkersFound(sources: seq<Source>, i: nat)
    requires i < |sources| && sources[i].lines.Some? && Distinct(Paths(sources))
    ensures sources[i].path in MarkersBySource(sources)
    ensures MarkersBySource(sources)[sources[i].path] == MarkersOf(sources[i].lines.value)
  {
    hide MarkersOf;
    var t, s := sources[..|sources| - 1], sources[|sources| - 1];
    assert Paths(sources) == Paths(t) + [s.path];
    DistinctGrows(Paths(t), s.path);
    if i < |t| {
      MarkersFound(t, i);
      assert Paths(t)[i] == t[i].path;
    }
  }

  lemma SameSets(s: seq<string>, t: seq<string>)
    requires forall p :: p in s <==> p in t
    ensures Members(s) == Members(t)
  {
  }

  lemma InventoryParts(r: Report, winners: map<string, Candidate>, sources: seq<Source>, run: Run)
    requires IsInventory(r, winners, sources, run)
    ensures Best(winners, AllCandidates(sources)) && Tally(r.byFile, winners, FileOf())
    ensures r.sources == Sort(Ascending(), Paths(sources)) && |Paths(sources)| == |sources|
    ensures r.without == Sort(Ascending(), Filter(Paths(sources), Lacks(WithRows(winners))))
    ensures r.sourcesWith == |WithRows(winners)| && r.rows == |winners|
  {
  }

  // Every source is counted once, with rows or without.
  lemma CoverageAgrees(r: Report, winners: map<string, Candidate>, sources: seq<Source>, run: Run)
    requires IsInventory(r, winners, sources, run)
    ensures FileKeys(r.byFile) + Members(r.without) == Members(r.sources) == Members(Paths(sources))
    ensures FileKeys(r.byFile) !! Members(r.without)
    ensures r.sourcesWith == |FileKeys(r.byFile)|
    ensures |r.sources| == |sources| && (Distinct(r.sources) <==> Distinct(Paths(sources)))
  {
    hide *;
    InventoryParts(r, winners, sources, run);
    var withRows, all := WithRows(winners), Members(Paths(sources));
    SortStrings(Paths(sources));
    FilesAreWithRows(r.byFile, winners);
    WinnersInSources(winners, sources);
    WithoutRows(sources, winners, r.without);
    assert withRows <= all && Members(r.without) == all - withRows;
    SameSets(r.sources, Paths(sources));
  }

  // The report's entry for a source without rows.
  lemma DetailOfSource(r: Report, winners: map<string, Candidate>, sources: seq<Source>, run: Run, j: nat, k: nat)
    requires IsInventory(r, winners, sources, run) && Distinct(Paths(sources))
    requires k < |sources| && sources[k].lines.Some?
    requires j < |r.without| && r.without[j] == sources[k].path
    ensures r.details[j] == DetailOf(sources[k].path, map[sources[k].path := MarkersOf(sources[k].lines.value)],
                                     Filter(run.refs, run.isRef))
  {
    hide Best, Tally, InOrder, RowsListed, MarkersOf, IsCurrentness, Sort, Filter;
    MarkersFound(sources, k);
  }

  lemma SourceOfDetail(r: Report, winners: map<string, Candidate>, sources: seq<Source>, run: Run, j: nat)
    returns (k: nat)
    requires IsInventory(r, winners, sources, run) && j < |r.without|
    ensures k < |sources| && sources[k].path == r.without[j] && r.without[j] !in WithRows(winners)
  {
    hide Best, Tally, InOrder, RowsListed, MarkersOf, IsCurrentness, Sort, Filter;
    WithoutRows(sources, winners, r.without);
    assert r.without[j] in Members(r.without);
    k :| 0 <= k < |sources| && Paths(sources)[k] == r.without[j];
  }

  lemma EntryOfSource(r: Report, winners: map<string, Candidate>, sources: seq<Source>, run: Run, k: nat)
    returns (j: nat)
    requires IsInventory(r, winners, sources, run) && k < |sources| && sources[k].path !in WithRows(winners)
    ensures j < |r.without| && r.without[j] == sources[k].path
  {
    hide Best, Tally, InOrder, RowsListed, MarkersOf, IsCurrentness, Sort, Filter;
    WithoutRows(sources, winners, r.without);
    assert Paths(sources)[k] == sources[k].path;
    assert sources[k].path in Members(r.without);
    j :| 0 <= j < |r.without| && r.without[j] == sources[k].path;
  }

  lemma NoClaimsUnasked(sources: seq<Source>)
    ensures AllClaims(sources, None) == []
  {
  }

  lemma ListsInInventory(r: Report, winners: map<string, Candidate>, sources: seq<Source>, run: Run)
    requires IsInventory(r, winners, sources, run)
    ensures IsCurrentness(r.currentness, AllClaims(sources, run.checkedAt), run.checkedAt)
    ensures Best(winners, AllCandidates(sources)) && Tally(r.byFile, winners, FileOf())
            && Tally(r.byRule, winners, RuleOf())
    ensures r.candidates.Some? == run.includeRows
    ensures run.includeRows ==> RowsListed(r.candidates.value, winners)
  {
  }
}
