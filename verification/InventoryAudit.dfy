/** The completion audit's view of an inventory report: what it recomputes, and what it takes to be recorded. */
module InventoryAudit {
  import opened Inventory
  import opened InventoryFacts
  import opened InventoryLeaks
  import opened InventoryReport
  import opened InventoryRows
  import opened Jsons
  import opened Sorting
  import opened Lists
  import opened RowTally
  import opened Text

  const SOURCE_PREFIX := "prompt_corpus/GOAL_LOOP/"

  // ---- what the audit accepts, in terms of the report alone ----

  function Nonblank(): string -> bool {
    (p: string) => Strip(p) != ""
  }

  function StripAll(s: seq<string>): seq<string> {
    seq(|s|, i requires 0 <= i < |s| => Strip(s[i]))
  }

  // string_list
  function StringList(s: seq<string>): seq<string> {
    StripAll(Filter(s, Nonblank()))
  }

  ghost predicate ValidSources(value: seq<string>, sources: seq<string>) {
    && |sources| == |value|
    && Distinct(sources)
    && forall i :: 0 <= i < |sources| ==> SOURCE_PREFIX <= sources[i]
  }

  predicate AddsUp(d: Detail) {
    && d.markers.Some?
    && d.markers.value.total == d.markers.value.headings + d.markers.value.tableRows
                                + d.markers.value.numbered + d.markers.value.bullets
  }

  function RefsOf(d: Detail): seq<string> {
    if d.refs.Some? then d.refs.value else []
  }

  // Marker counts that add up and, if there are any markers, tracking references that are all well formed.
  predicate DetailOk(d: Detail, isRef: string -> bool) {
    && AddsUp(d)
    && (d.markers.value.total > 0 ==>
          Filter(RefsOf(d), isRef) != [] && |Filter(RefsOf(d), isRef)| == |RefsOf(d)|)
  }

  function Tracked(isRef: string -> bool): Detail -> bool {
    (d: Detail) => AddsUp(d) && d.markers.value.total > 0 && Filter(RefsOf(d), isRef) != []
  }

  function AuditedMarkers(ds: seq<Detail>): nat {
    if ds == [] then 0 else
      var d := ds[|ds| - 1];
      AuditedMarkers(ds[..|ds| - 1]) + if AddsUp(d) then d.markers.value.total else 0
  }

  ghost predicate DetailsAccounted(r: Report, isRef: string -> bool) {
    && (set d | d in r.details :: d.path) == Members(r.without)
    && |r.details| == |Members(r.without)|
    && (forall d :: d in r.details ==> DetailOk(d, isRef))
    && r.unstructuredSources == CountIf(r.details, HasMarkers())
    && r.unstructuredMarkers == AuditedMarkers(r.details)
    && r.trackedSources == CountIf(r.details, Tracked(isRef))
  }

  ghost predicate SourcesAccounted(r: Report, sources: seq<string>) {
    && Members(sources) == FileKeys(r.byFile) + Members(r.without)
    && FileKeys(r.byFile) !! Members(r.without)
    && r.sourcesChecked == |sources|
    && r.sourcesWith == |FileKeys(r.byFile)|
    && r.sourcesWithout == |Members(r.without)|
  }

  predicate ClaimOk(c: Claim) {
    c.line > 0 && c.kind != ""
  }

  ghost predicate CurrentnessConsistent(c: Currentness) {
    if c.checkedAt.None? then
      c.claimsTotal == 0 && c.sourcesTotal == 0 && c.blockingTotal == 0 && c.blockingSourcesTotal == 0
      && c.current && c.claims == []
    else
      && c.claimsTotal == |c.claims|
      && Members(c.sources) == ClaimPaths(c.claims) && c.sourcesTotal == |ClaimPaths(c.claims)|
      && c.blockingTotal == CountIf(c.claims, Blocks())
      && Members(c.blockingSources) == BlockingPaths(c.claims)
      && c.blockingSourcesTotal == |BlockingPaths(c.claims)|
      && c.current == (c.blockingTotal == 0)
      && forall x :: x in c.claims ==> ClaimOk(x)
  }

  predicate ResultConsistent(r: Report) {
    || (r.status == INCOMPLETE && r.result == INSUFFICIENT && r.rows < r.expected)
    || (r.status == COMPLETE && r.result == MATCH && r.rows == r.expected && r.missing == 0)
  }

  // What the completion audit knows besides the report.
  datatype Auditor = Auditor(
    catalogId: Option<string>, expected: Option<int>, isRef: string -> bool, localPath: string -> bool)

  ghost predicate Recorded(r: Report, a: Auditor) {
    var sources := StringList(r.sources);
    && r.schema == 1 && ResultConsistent(r)
    && a.catalogId == Some(r.catalogId) && a.expected == Some(r.expected)
    && r.missing == (if r.expected - r.rows > 0 then r.expected - r.rows else 0)
    && SumRows(r.byFile) == r.rows && SumRows(r.byRule) == r.rows
    && SourcesAccounted(r, sources)
    && DetailsAccounted(r, a.isRef)
    && CurrentnessConsistent(r.currentness)
    && |sources| >= 12
    && r.errorsTotal == 0 && r.errors == []
    && ValidSources(r.sources, sources)
    && !Leaks(AsJson(r), a.localPath)
  }

  // ---- the audit's loops ----

  // prompt_source_list: strip, drop blanks, look for repetitions.
  method PromptSourceList(value: seq<string>) returns (sources: seq<string>, valid: bool)
    ensures sources == StringList(value)
    ensures valid <==> ValidSources(value, sources)
  {
    hide Strip, Filter, SOURCE_PREFIX;
    sources := StringList(value);
    var seen: set<string>, repeated, misplaced := {}, false, false;
    for i := 0 to |sources|
      invariant seen == Members(sources[..i])
      invariant repeated <==> !Distinct(sources[..i])
      invariant misplaced <==> exists j :: 0 <= j < i && !(SOURCE_PREFIX <= sources[j])
    {
      assert sources[..i + 1] == sources[..i] + [sources[i]];
      DistinctGrows(sources[..i], sources[i]);
      if sources[i] in seen {
        repeated := true;
      }
      if !(SOURCE_PREFIX <= sources[i]) {
        misplaced := true;
      }
      seen := seen + {sources[i]};
    }
    assert sources[..|sources|] == sources;
    valid := |sources| == |value| && !repeated && !misplaced;
  }

  method SumUniqueCandidateRows(items: seq<KeyCount>) returns (total: nat)
    ensures total == SumRows(items)
  {
    total := 0;
    for i := 0 to |items|
      invariant total == SumRows(items[..i])
    {
      assert items[..i + 1][..i] == items[..i];
      total := total + items[i].rows;
    }
    assert items[..|items|] == items;
  }

  lemma NoClaimPaths()
    ensures ClaimPaths([]) == {} && BlockingPaths([]) == {}
  {
  }

  lemma ClaimPathsGrow(claims: seq<Claim>, c: Claim)
    ensures ClaimPaths(claims + [c]) == ClaimPaths(claims) + {c.path}
    ensures BlockingPaths(claims + [c]) == BlockingPaths(claims) + if c.blocking then {c.path} else {}
  {
    assert c in claims + [c];
  }

  // The loop over the future-date claims: their paths, the blocking ones, and the malformed ones.
  method AuditClaims(claims: seq<Claim>)
    returns (paths: set<string>, blockingPaths: set<string>, blocking: nat, invalid: seq<string>)
    ensures paths == ClaimPaths(claims) && blockingPaths == BlockingPaths(claims)
    ensures blocking == CountIf(claims, Blocks())
    ensures invalid == [] <==> forall c :: c in claims ==> ClaimOk(c)
  {
    hide ClaimPaths, BlockingPaths;
    NoClaimPaths();
    paths, blockingPaths, blocking, invalid := {}, {}, 0, [];
    for i := 0 to |claims|
      invariant paths == ClaimPaths(claims[..i]) && blockingPaths == BlockingPaths(claims[..i])
      invariant blocking == CountIf(claims[..i], Blocks())
      invariant invalid == [] <==> forall j :: 0 <= j < i ==> ClaimOk(claims[j])
    {
      var c := claims[i];
      assert claims[..i + 1] == claims[..i] + [c];
      ClaimPathsGrow(claims[..i], c);
      assert claims[..i + 1][..i] == claims[..i];
      paths := paths + {c.path};
      if c.line == 0 {
        invalid := invalid + [c.path];
      }
      if c.kind == "" {
        invalid := invalid + [c.path];
      }
      if c.blocking {
        blockingPaths, blocking := blockingPaths + {c.path}, blocking + 1;
      }
    }
    assert claims[..|claims|] == claims;
  }

  // The loop over the sources without rows.
  method AuditDetails(details: seq<Detail>, isRef: string -> bool)
    returns (markers: nat, tracked: nat, unstructured: nat, invalid: seq<string>)
    ensures markers == AuditedMarkers(details)
    ensures tracked == CountIf(details, Tracked(isRef))
    ensures unstructured == CountIf(details, HasMarkers())
    ensures invalid == [] <==> forall d :: d in details ==> DetailOk(d, isRef)
  {
    markers, tracked, unstructured, invalid := 0, 0, 0, [];
    for i := 0 to |details|
      invariant markers == AuditedMarkers(details[..i])
      invariant tracked == CountIf(details[..i], Tracked(isRef))
      invariant unstructured == CountIf(details[..i], HasMarkers())
      invariant invalid == [] <==> forall j :: 0 <= j < i ==> DetailOk(details[j], isRef)
    {
      hide Filter;
      var d := details[i];
      assert details[..i + 1] == details[..i] + [d];
      assert details[..i + 1][..i] == details[..i];
      if HasMarkers()(d) {
        unstructured := unstructured + 1;
      }
      if !AddsUp(d) {
        invalid := invalid + [d.path];
      } else {
        markers := markers + d.markers.value.total;
        var valid := Filter(RefsOf(d), isRef);
        if d.markers.value.total > 0 {
          if valid != [] {
            tracked := tracked + 1;
          } else {
            invalid := invalid + [d.path];
          }
          if |valid| != |RefsOf(d)| {
            invalid := invalid + [d.path];
          }
        }
      }
    }
    assert details[..|details|] == details;
  }

  method AuditCurrentness(now: Currentness) returns (consistent: bool)
    ensures consistent <==> CurrentnessConsistent(now)
  {
    hide ClaimOk, ClaimPaths, BlockingPaths, CountIf;
    var paths, blockingPaths, blocking, badClaims := AuditClaims(now.claims);
    var sources, blockingSources := (set p | p in now.sources), (set p | p in now.blockingSources);
    assert sources == Members(now.sources) && blockingSources == Members(now.blockingSources);
    consistent :=
      if now.checkedAt.None? then
        now.claimsTotal == 0 && now.sourcesTotal == 0 && now.blockingTotal == 0 && now.blockingSourcesTotal == 0
        && now.current && now.claims == []
      else
        now.claimsTotal == |now.claims| && sources == paths && now.sourcesTotal == |paths|
        && now.blockingTotal == blocking && blockingSources == blockingPaths
        && now.blockingSourcesTotal == |blockingPaths| && now.current == (blocking == 0) && badClaims == [];
  }

  // ---- the verdict on any report, written out ----

  ghost predicate CurrentnessSound(c: Currentness) {
    && c.claimsTotal == |c.claims|
    && c.sourcesTotal == |set x | x in c.claims :: x.path|
    && c.blockingTotal == |set i | 0 <= i < |c.claims| && c.claims[i].blocking|
    && c.blockingSourcesTotal == |set x | x in c.claims && x.blocking :: x.path|
    && (c.current <==> forall x :: x in c.claims ==> !x.blocking)
    && (c.checkedAt.None? ==> c.claims == [])
    && (c.checkedAt.Some? ==>
          && (set p | p in c.sources) == (set x | x in c.claims :: x.path)
          && (set p | p in c.blockingSources) == (set x | x in c.claims && x.blocking :: x.path)
          && forall x :: x in c.claims ==> x.line > 0 && x.kind != "")
  }

  // Marker counts that add up and, if there are any, references that are all well formed.
  ghost predicate DetailSound(d: Detail, isRef: string -> bool) {
    && d.markers.Some?
    && (var m := d.markers.value; m.total == m.headings + m.tableRows + m.numbered + m.bullets)
    && (d.markers.value.total > 0 ==>
          d.refs.Some? && d.refs.value != [] && forall x :: x in d.refs.value ==> isRef(x))
  }

  ghost predicate DetailsSound(r: Report, isRef: string -> bool) {
    && (set d | d in r.details :: d.path) == (set p | p in r.without)
    && |r.details| == |set p | p in r.without|
    && (forall d :: d in r.details ==> DetailSound(d, isRef))
    && r.unstructuredSources ==
       |set i | 0 <= i < |r.details| && r.details[i].markers.Some? && r.details[i].markers.value.total > 0|
    && r.trackedSources == r.unstructuredSources
    && r.unstructuredMarkers == TotalMarkers(r.details)
  }

  ghost predicate SourcesSound(r: Report) {
    && |r.sources| >= 12
    && (forall p :: p in r.sources ==> "prompt_corpus/GOAL_LOOP/" <= Strip(p))
    && (forall i, j :: 0 <= i < j < |r.sources| ==> Strip(r.sources[i]) != Strip(r.sources[j]))
    && (set p | p in r.sources :: Strip(p)) == (set k | k in r.byFile :: k.key) + (set p | p in r.without)
    && (forall k :: k in r.byFile ==> k.key !in r.without)
    && r.sourcesChecked == |r.sources|
    && r.sourcesWith == |set k | k in r.byFile :: k.key|
    && r.sourcesWithout == |set p | p in r.without|
  }

  ghost predicate ResultSound(r: Report) {
    && r.missing == r.expected - r.rows
    && (if r.rows == r.expected then r.status == "COMPLETE" && r.result == "EXPLICIT_SOURCE_ROWS_MATCH_EXPECTED"
        else r.rows < r.expected && r.status == "INCOMPLETE" && r.result == "EXPLICIT_SOURCE_ROWS_INSUFFICIENT")
  }

  // Everything the audit asks of a report, whoever wrote it.
  ghost predicate Sound(r: Report, a: Auditor) {
    && r.schema == 1 && ResultSound(r)
    && a.catalogId == Some(r.catalogId) && a.expected == Some(r.expected)
    && SumRows(r.byFile) == r.rows && SumRows(r.byRule) == r.rows
    && SourcesSound(r) && DetailsSound(r, a.isRef) && CurrentnessSound(r.currentness)
    && r.errors == [] && r.errorsTotal == 0
    && !Leaks(AsJson(r), a.localPath)
  }

  lemma CurrentnessIsSound(c: Currentness)
    ensures CurrentnessConsistent(c) <==> CurrentnessSound(c)
  {
    CountsPlaces(c.claims, Blocks(), set i | 0 <= i < |c.claims| && c.claims[i].blocking);
    CountsSome(c.claims, Blocks());
    assert forall x :: Blocks()(x) <==> x.blocking;
    assert ClaimPaths(c.claims) == set x | x in c.claims :: x.path;
    assert BlockingPaths(c.claims) == set x | x in c.claims && x.blocking :: x.path;
    hide CountIf, ClaimPaths, BlockingPaths, Blocks;
    if c.claims == [] {
      assert (set x | x in c.claims :: x.path) == {} && (set x | x in c.claims && x.blocking :: x.path) == {};
    }
  }

  lemma DetailIsSound(d: Detail, isRef: string -> bool)
    ensures DetailOk(d, isRef) <==> DetailSound(d, isRef)
    ensures DetailOk(d, isRef) ==> (Tracked(isRef)(d) <==> HasMarkers()(d))
  {
    var refs := RefsOf(d);
    FilterMembers(refs, isRef);
    CountIfAll(refs, isRef);
    if refs != [] {
      assert refs[0] in refs;
    }
    hide Filter, CountIf;
    if DetailSound(d, isRef) && d.markers.value.total > 0 {
      assert refs[0] in Filter(refs, isRef);
    }
  }

  lemma DetailsAreSound(r: Report, isRef: string -> bool)
    ensures DetailsAccounted(r, isRef) <==> DetailsSound(r, isRef)
  {
    hide DetailOk, DetailSound, Tracked, HasMarkers, CountIf, AuditedMarkers;
    forall d
      ensures DetailOk(d, isRef) <==> DetailSound(d, isRef)
      ensures DetailOk(d, isRef) ==> (Tracked(isRef)(d) <==> HasMarkers()(d)) && AddsUp(d)
    {
      DetailIsSound(d, isRef);
      if DetailOk(d, isRef) {
        DetailOkAddsUp(d, isRef);
      }
    }
    if forall d :: d in r.details ==> DetailOk(d, isRef) {
      CountIfSame(r.details, Tracked(isRef), HasMarkers());
      MarkersAgree(r.details);
    }
    MarkedPlaces(r.details);
  }

  lemma MarkedPlaces(ds: seq<Detail>)
    ensures CountIf(ds, HasMarkers()) ==
            |set i | 0 <= i < |ds| && ds[i].markers.Some? && ds[i].markers.value.total > 0|
  {
    CountsPlaces(ds, HasMarkers(), set i | 0 <= i < |ds| && ds[i].markers.Some? && ds[i].markers.value.total > 0);
  }

  lemma ListIsStripped(s: seq<string>)
    ensures |StringList(s)| == |s| <==> forall p :: p in s ==> Strip(p) != ""
    ensures |StringList(s)| == |s| ==> forall i :: 0 <= i < |s| ==> StringList(s)[i] == Strip(s[i])
  {
    hide Strip;
    FilterMembers(s, Nonblank());
    CountIfAll(s, Nonblank());
    assert forall p :: Nonblank()(p) <==> Strip(p) != "";
    if forall p :: p in s ==> Nonblank()(p) {
      FilterAll(s, Nonblank());
    }
  }

  lemma StrippedList(s: seq<string>, list: seq<string>)
    requires |list| == |s| && forall i :: 0 <= i < |s| ==> list[i] == Strip(s[i])
    ensures Members(list) == set p | p in s :: Strip(p)
    ensures Distinct(list) <==> forall i, j :: 0 <= i < j < |s| ==> Strip(s[i]) != Strip(s[j])
    ensures (forall i :: 0 <= i < |list| ==> SOURCE_PREFIX <= list[i]) <==>
            forall p :: p in s ==> SOURCE_PREFIX <= Strip(p)
  {
    hide Strip, SOURCE_PREFIX;
    assert forall i :: 0 <= i < |s| ==> s[i] in s && list[i] in list;
  }

  lemma StrippedAreSound(r: Report, list: seq<string>)
    requires |list| == |r.sources| && forall i :: 0 <= i < |list| ==> list[i] == Strip(r.sources[i])
    ensures (SourcesAccounted(r, list) && ValidSources(r.sources, list) && |list| >= 12) <==> SourcesSound(r)
  {
    hide Strip, Distinct;
    StrippedList(r.sources, list);
    KeySets(r);
    KeysApart(r);
    hide FileKeys, Members;
  }

  lemma KeySets(r: Report)
    ensures FileKeys(r.byFile) == set k | k in r.byFile :: k.key
    ensures Members(r.without) == set p | p in r.without
  {
  }

  lemma SourcesAreSound(r: Report)
    ensures (SourcesAccounted(r, StringList(r.sources)) && ValidSources(r.sources, StringList(r.sources))
             && |StringList(r.sources)| >= 12) <==> SourcesSound(r)
  {
    hide Strip, StringList, SourcesAccounted;
    ListIsStripped(r.sources);
    if |StringList(r.sources)| == |r.sources| {
      StrippedAreSound(r, StringList(r.sources));
    } else {
      BlankIsUnsound(r);
    }
  }

  lemma BlankIsUnsound(r: Report)
    requires exists p :: p in r.sources && Strip(p) == ""
    ensures !SourcesSound(r)
  {
    hide Strip;
    var p :| p in r.sources && Strip(p) == "";
    assert !("prompt_corpus/GOAL_LOOP/" <= Strip(p));
  }

  lemma KeysApart(r: Report)
    ensures FileKeys(r.byFile) !! Members(r.without) <==> forall k :: k in r.byFile ==> k.key !in r.without
  {
    forall k | k in r.byFile
      ensures k.key in FileKeys(r.byFile)
    {
      var i :| 0 <= i < |r.byFile| && r.byFile[i] == k;
    }
  }

  /** The audit's conditions amount to these. */
  lemma RecordedIffSound(r: Report, a: Auditor)
    ensures Recorded(r, a) <==> Sound(r, a)
  {
    hide SourcesAccounted, ValidSources, SourcesSound, DetailsAccounted, DetailsSound, CurrentnessConsistent,
         CurrentnessSound, StringList, SumRows, Leaks, AsJson;
    CurrentnessIsSound(r.currentness);
    DetailsAreSound(r, a.isRef);
    SourcesAreSound(r);
  }

  /** source_row_candidate_inventory_evidence, for a report that was given. */
  method AuditInventory(r: Report, a: Auditor) returns (recorded: bool)
    ensures recorded <==> Recorded(r, a)
    ensures recorded <==> Sound(r, a)
  {
    RecordedIffSound(r, a);
    hide ResultConsistent, ValidSources, DetailOk, Tracked, HasMarkers, AuditedMarkers, SumRows, StringList, CountIf,
         CurrentnessConsistent, Leaks, AsJson, Sound;
    var sources, valid := PromptSourceList(r.sources);
    var byFile := SumUniqueCandidateRows(r.byFile);
    var byRule := SumUniqueCandidateRows(r.byRule);
    var withRows := set i | 0 <= i < |r.byFile| :: r.byFile[i].key;
    var without := set p | p in r.without;
    assert withRows == FileKeys(r.byFile) && without == Members(r.without);
    var current := AuditCurrentness(r.currentness);
    var detailPaths := set d | d in r.details :: d.path;
    var markers, tracked, unstructured, badDetails := AuditDetails(r.details, a.isRef);
    var sourcesAccounted := set p | p in sources;
    recorded :=
      && r.schema == 1 && ResultConsistent(r)
      && a.catalogId == Some(r.catalogId) && a.expected == Some(r.expected)
      && r.missing == (if r.expected - r.rows > 0 then r.expected - r.rows else 0)
      && byFile == r.rows && byRule == r.rows
      && sourcesAccounted == withRows + without && withRows !! without
      && r.sourcesChecked == |sources| && r.sourcesWith == |withRows| && r.sourcesWithout == |without|
      && detailPaths == without && |r.details| == |without| && badDetails == []
      && r.unstructuredSources == unstructured && r.unstructuredMarkers == markers && r.trackedSources == tracked
      && current
      && |sources| >= 12
      && r.errorsTotal == 0 && r.errors == []
      && valid && !Leaks(AsJson(r), a.localPath);
  }

  // ---- when the audit records what the inventory wrote ----

  ghost predicate WellPlaced(path: string) {
    SOURCE_PREFIX <= path && Strip(path) == path
  }

  // The run's own inputs decide: enough distinct readable sources in their place, not too many rows, a tracking
  // reference if a source has markers but no row, and no local path in a text the report takes over.
  ghost predicate Acceptable(winners: map<string, Candidate>, sources: seq<Source>, run: Run, a: Auditor) {
    && a.catalogId == Some(run.catalogId) && a.expected == Some(run.expected)
    && !InputsLeak(winners, sources, run, a.localPath)
    && |winners| <= run.expected
    && |sources| >= 12
    && Distinct(Paths(sources))
    && (forall s :: s in sources ==> WellPlaced(s.path) && s.lines.Some?)
    && (forall s :: s in sources && NeedsTracking(s, winners) ==> Filter(run.refs, run.isRef) != [])
  }

  lemma {:induction false} MarkersAgree(ds: seq<Detail>)
    requires forall d :: d in ds ==> AddsUp(d)
    ensures AuditedMarkers(ds) == TotalMarkers(ds)
  {
    if ds != [] {
      MarkersAgree(ds[..|ds| - 1]);
    }
  }

  lemma StringListStripped(s: seq<string>)
    ensures forall p :: p in StringList(s) ==> exists q :: q in s && p == Strip(q)
    ensures (forall p :: p in s ==> Strip(p) == p && p != "") ==> StringList(s) == s
  {
    FilterMembers(s, Nonblank());
    if forall p :: p in s ==> Strip(p) == p && p != "" {
      FilterAll(s, Nonblank());
    }
  }

  lemma {:induction false} LineClaimsOk(dates: seq<Date>, text: string, path: string, line: nat, checkedAt: Date)
    requires line > 0
    ensures forall c :: c in LineClaims(dates, text, path, line, checkedAt) ==> ClaimOk(c)
  {
    hide Classify, Strip;
    if dates != [] {
      LineClaimsOk(dates[..|dates| - 1], text, path, line, checkedAt);
    }
  }

  lemma {:induction false} SourceClaimsOk(lines: seq<Line>, path: string, checkedAt: Date, k: nat)
    requires k <= |lines|
    ensures forall c :: c in SourceClaims(lines, path, checkedAt, k) ==> ClaimOk(c)
  {
    hide LineClaims;
    if k > 0 {
      SourceClaimsOk(lines, path, checkedAt, k - 1);
      LineClaimsOk(lines[k - 1].dates, lines[k - 1].text, path, k, checkedAt);
    }
  }

  lemma {:induction false} AllClaimsOk(sources: seq<Source>, checkedAt: Option<Date>)
    ensures forall c :: c in AllClaims(sources, checkedAt) ==> ClaimOk(c)
  {
    hide SourceClaims;
    if sources != [] && checkedAt.Some? {
      var s := sources[|sources| - 1];
      AllClaimsOk(sources[..|sources| - 1], checkedAt);
      if s.lines.Some? {
        SourceClaimsOk(s.lines.value, s.path, checkedAt.value, |s.lines.value|);
      }
    }
  }

  lemma CurrentnessAgrees(now: Currentness, sources: seq<Source>, checkedAt: Option<Date>)
    requires IsCurrentness(now, AllClaims(sources, checkedAt), checkedAt)
    ensures CurrentnessConsistent(now)
  {
    hide AllClaims, ClaimOk;
    AllClaimsOk(sources, checkedAt);
    DistinctCount(now.sources);
    DistinctCount(now.blockingSources);
    if checkedAt.None? {
      NoClaimsUnasked(sources);
    }
  }

  // What an inventory's counts always satisfy.
  lemma CountsAgree(r: Report, winners: map<string, Candidate>, sources: seq<Source>, run: Run)
    requires IsInventory(r, winners, sources, run)
    ensures SumRows(r.byFile) == r.rows && SumRows(r.byRule) == r.rows
    ensures CurrentnessConsistent(r.currentness)
  {
    hide *;
    ListsInInventory(r, winners, sources, run);
    InventoryParts(r, winners, sources, run);
    TallyAddsUp(r.byFile, winners, FileOf());
    TallyAddsUp(r.byRule, winners, RuleOf());
    CurrentnessAgrees(r.currentness, sources, run.checkedAt);
  }

  lemma RecordedParts(r: Report, a: Auditor)
    requires Recorded(r, a)
    ensures ResultConsistent(r) && a.catalogId == Some(r.catalogId) && a.expected == Some(r.expected)
    ensures SourcesAccounted(r, StringList(r.sources)) && ValidSources(r.sources, StringList(r.sources))
    ensures DetailsAccounted(r, a.isRef) && |StringList(r.sources)| >= 12 && r.errors == []
    ensures !Leaks(AsJson(r), a.localPath)
  {
    hide ResultConsistent, StringList, SourcesAccounted, ValidSources, DetailsAccounted, Leaks, AsJson;
  }

  // What the verdict's plain fields say of the run.
  lemma VerdictFields(r: Report, winners: map<string, Candidate>, sources: seq<Source>, run: Run)
    requires IsInventory(r, winners, sources, run)
    ensures ResultConsistent(r) && r.errors == [] <==> Errors(sources) == [] && |winners| <= run.expected
    ensures r.schema == 1 && r.catalogId == run.catalogId && r.expected == run.expected && r.errorsTotal == |r.errors|
    ensures r.missing == if r.expected - r.rows > 0 then r.expected - r.rows else 0
    ensures r.sourcesChecked == |sources|
  {
    assert COMPLETE != INCOMPLETE;
    hide COMPLETE, INCOMPLETE, MATCH, INSUFFICIENT, INVENTORY_ID, Paths, Sort, Filter, CountIf, Errors;
  }

  lemma SourcesAreKnown(r: Report, audited: seq<string>, all: set<string>)
    requires SourcesAccounted(r, audited) && ValidSources(r.sources, audited)
    requires FileKeys(r.byFile) + Members(r.without) == all
    ensures Members(audited) == all && Distinct(audited) && |audited| == |r.sources|
    ensures forall i :: 0 <= i < |audited| ==> SOURCE_PREFIX <= audited[i]
  {
    hide FileKeys, Members, Distinct, SOURCE_PREFIX;
  }

  // Stripping changes nothing if the audit is to account for every source.
  lemma RecordedStrips(r: Report, winners: map<string, Candidate>, sources: seq<Source>, run: Run, a: Auditor)
    requires IsInventory(r, winners, sources, run) && Recorded(r, a)
    ensures Distinct(Paths(sources)) && |sources| >= 12
    ensures forall s :: s in sources ==> WellPlaced(s.path)
  {
    hide *;
    RecordedParts(r, a);
    CoverageAgrees(r, winners, sources, run);
    SourcesAreKnown(r, StringList(r.sources), Members(Paths(sources)));
    AuditedStrips(r.sources, sources);
  }

  lemma Placed(p: string)
    requires WellPlaced(p)
    ensures SOURCE_PREFIX <= p && Strip(p) == p && p != ""
  {
  }

  lemma AuditedStrips(value: seq<string>, sources: seq<Source>)
    requires Members(StringList(value)) == Members(value) == Members(Paths(sources))
    requires Distinct(StringList(value)) && |StringList(value)| == |value|
    requires forall i :: 0 <= i < |StringList(value)| ==> SOURCE_PREFIX <= StringList(value)[i]
    ensures Distinct(value)
    ensures forall s :: s in sources ==> WellPlaced(s.path)
  {
    hide StringList, Strip, SOURCE_PREFIX, Distinct;
    StringListStripped(value);
    var audited := StringList(value);
    forall s | s in sources
      ensures WellPlaced(s.path)
    {
      var i :| 0 <= i < |sources| && sources[i] == s;
      assert Paths(sources)[i] == s.path;
      assert s.path in Members(audited);
      var q :| q in value && s.path == Strip(q);
      StripTwice(q);
      var j :| 0 <= j < |audited| && audited[j] == s.path;
    }
    forall p | p in value
      ensures Strip(p) == p && p != ""
    {
      assert p in Members(Paths(sources));
      var i :| 0 <= i < |sources| && Paths(sources)[i] == p;
      assert sources[i] in sources;
      Placed(p);
    }
  }

  lemma AccountedDetail(r: Report, isRef: string -> bool, j: nat)
    requires DetailsAccounted(r, isRef) && j < |r.details|
    ensures DetailOk(r.details[j], isRef)
  {
    hide DetailOk, Tracked, HasMarkers, CountIf, AuditedMarkers;
  }

  lemma TrackedDetail(path: string, m: Markers, refs: seq<string>, isRef: string -> bool)
    requires DetailOk(DetailOf(path, map[path := m], Filter(refs, isRef)), isRef) && m.total > 0
    ensures Filter(refs, isRef) != []
  {
    hide Filter;
    FilterTwice(refs, isRef);
  }

  lemma RecordedTracks(r: Report, winners: map<string, Candidate>, sources: seq<Source>, run: Run, a: Auditor,
                       s: Source)
    requires IsInventory(r, winners, sources, run) && a.isRef == run.isRef && DetailsAccounted(r, a.isRef)
    requires Distinct(Paths(sources)) && s in sources && NeedsTracking(s, winners)
    ensures Filter(run.refs, run.isRef) != []
  {
    hide IsInventory, MarkersOf, Filter, WithRows, DetailsAccounted, DetailOk, DetailOf, Paths, Distinct,
         NeedsTracking;
    TrackingByMarkers(s, winners);
    InventoryLists(r, winners, sources, run);
    var k :| 0 <= k < |sources| && sources[k] == s;
    var j := EntryOfSource(r, winners, sources, run, k);
    DetailOfSource(r, winners, sources, run, j, k);
    AccountedDetail(r, a.isRef, j);
    TrackedDetail(s.path, MarkersOf(s.lines.value), run.refs, run.isRef);
  }

  // Recorded implies acceptable.
  lemma RecordedIsAcceptable(r: Report, winners: map<string, Candidate>, sources: seq<Source>, run: Run, a: Auditor)
    requires IsInventory(r, winners, sources, run) && a.isRef == run.isRef
    requires Recorded(r, a)
    ensures Acceptable(winners, sources, run, a)
  {
    hide IsInventory, Recorded, ResultConsistent, SourcesAccounted, ValidSources, DetailsAccounted, NeedsTracking,
         Filter, StringList, WellPlaced, InputsLeak, Leaks, AsJson, Paths, Errors;
    RecordedParts(r, a);
    VerdictFields(r, winners, sources, run);
    RecordedStrips(r, winners, sources, run, a);
    ReadableIffNoErrors(sources);
    forall s | s in sources && NeedsTracking(s, winners)
      ensures Filter(run.refs, run.isRef) != []
    {
      RecordedTracks(r, winners, sources, run, a, s);
    }
    ReportLeaksInputs(r, winners, sources, run, a.localPath);
  }

  lemma DetailsAreAccounted(r: Report, winners: map<string, Candidate>, sources: seq<Source>, run: Run, a: Auditor)
    requires IsInventory(r, winners, sources, run) && a.isRef == run.isRef
    requires Acceptable(winners, sources, run, a)
    ensures forall j :: 0 <= j < |r.details| ==> DetailOk(r.details[j], a.isRef)
    ensures forall d :: d in r.details ==> Tracked(a.isRef)(d) == HasTracking()(d)
  {
    hide Best, Tally, MarkersBySource, IsCurrentness, InOrder, RowsListed, Sort, Filter, WellPlaced, NeedsTracking,
         MarkersOf;
    FilterTwice(run.refs, run.isRef);
    forall j | 0 <= j < |r.details|
      ensures DetailOk(r.details[j], a.isRef) && Tracked(a.isRef)(r.details[j]) == HasTracking()(r.details[j])
    {
      var k := SourceOfDetail(r, winners, sources, run, j);
      assert sources[k] in sources;
      DetailOfSource(r, winners, sources, run, j, k);
      MarkersCount(sources[k].lines.value);
      TrackingByMarkers(sources[k], winners);
      assert NeedsTracking(sources[k], winners) <==> r.details[j].markers.value.total > 0;
    }
  }

  lemma AcceptableDetails(r: Report, winners: map<string, Candidate>, sources: seq<Source>, run: Run, a: Auditor)
    requires IsInventory(r, winners, sources, run) && a.isRef == run.isRef
    requires Acceptable(winners, sources, run, a)
    ensures DetailsAccounted(r, a.isRef) && r.sourcesWithout == |Members(r.without)|
  {
    hide Best, Tally, MarkersOf, IsCurrentness, InOrder, RowsListed, Sort, Filter, WellPlaced, DetailOk, Tracked,
         HasTracking, CountIf;
    DetailsAreAccounted(r, winners, sources, run, a);
    WithoutRows(sources, winners, r.without);
    CountIfSame(r.details, Tracked(a.isRef), HasTracking());
    forall d | d in r.details
      ensures AddsUp(d)
    {
      DetailOkAddsUp(d, a.isRef);
    }
    MarkersAgree(r.details);
    DetailPaths(r.details, r.without, MarkersBySource(sources), Filter(run.refs, run.isRef));
  }

  lemma DetailOkAddsUp(d: Detail, isRef: string -> bool)
    requires DetailOk(d, isRef)
    ensures AddsUp(d)
  {
  }

  lemma DetailPaths(ds: seq<Detail>, without: seq<string>, markers: map<string, Markers>, refs: seq<string>)
    requires |ds| == |without| && forall i :: 0 <= i < |ds| ==> ds[i] == DetailOf(without[i], markers, refs)
    ensures (set d | d in ds :: d.path) == Members(without)
  {
    forall p | p in Members(without)
      ensures p in set d | d in ds :: d.path
    {
      var i :| 0 <= i < |without| && without[i] == p;
      assert ds[i].path == p && ds[i] in ds;
    }
  }

  lemma AcceptableIsRecorded(r: Report, winners: map<string, Candidate>, sources: seq<Source>, run: Run, a: Auditor)
    requires IsInventory(r, winners, sources, run) && a.isRef == run.isRef
    requires Acceptable(winners, sources, run, a)
    ensures Recorded(r, a)
  {
    hide IsInventory, Acceptable, ResultConsistent, DetailsAccounted, CurrentnessConsistent, SumRows, StringList,
         ValidSources, WellPlaced, NeedsTracking, Filter, InputsLeak, Leaks, AsJson, Paths, Errors, FileKeys, Members;
    AcceptableParts(winners, sources, run, a);
    VerdictFields(r, winners, sources, run);
    CountsAgree(r, winners, sources, run);
    CoverageAgrees(r, winners, sources, run);
    ReadableIffNoErrors(sources);
    AcceptableDetails(r, winners, sources, run, a);
    SourcesInPlace(r.sources, sources);
    ReportLeaksInputs(r, winners, sources, run, a.localPath);
  }

  lemma AcceptableParts(winners: map<string, Candidate>, sources: seq<Source>, run: Run, a: Auditor)
    requires Acceptable(winners, sources, run, a)
    ensures a.catalogId == Some(run.catalogId) && a.expected == Some(run.expected)
    ensures !InputsLeak(winners, sources, run, a.localPath) && |winners| <= run.expected && |sources| >= 12
    ensures Distinct(Paths(sources)) && forall s :: s in sources ==> WellPlaced(s.path) && s.lines.Some?
  {
    hide InputsLeak, Paths, WellPlaced, NeedsTracking, Filter;
  }

  lemma SourcesInPlace(value: seq<string>, sources: seq<Source>)
    requires Distinct(value) && Members(value) == Members(Paths(sources))
    requires forall s :: s in sources ==> WellPlaced(s.path)
    ensures StringList(value) == value && ValidSources(value, value)
  {
    hide StringList, Filter, Strip, SOURCE_PREFIX, WellPlaced;
    StringListStripped(value);
    forall i | 0 <= i < |value|
      ensures SOURCE_PREFIX <= value[i] && Strip(value[i]) == value[i] && value[i] != ""
    {
      assert value[i] in Members(Paths(sources));
      SourceAt(sources, value[i]);
      Placed(value[i]);
    }
  }

  lemma SourceAt(sources: seq<Source>, p: string)
    requires forall s :: s in sources ==> WellPlaced(s.path)
    requires p in Paths(sources)
    ensures WellPlaced(p)
  {
    hide WellPlaced;
    var k :| 0 <= k < |sources| && Paths(sources)[k] == p;
    assert sources[k] in sources;
  }

  /** The audit records what the inventory wrote exactly when the run's inputs were acceptable. */
  lemma AuditDecides(r: Report, winners: map<string, Candidate>, sources: seq<Source>, run: Run, a: Auditor)
    requires IsInventory(r, winners, sources, run) && a.isRef == run.isRef
    ensures Recorded(r, a) <==> Acceptable(winners, sources, run, a)
  {
    hide IsInventory, Recorded, Acceptable;
    if Recorded(r, a) {
      RecordedIsAcceptable(r, winners, sources, run, a);
    }
    if Acceptable(winners, sources, run, a) {
      AcceptableIsRecorded(r, winners, sources, run, a);
    }
  }

  /** In any recorded report, whoever wrote it, the sources with rows and those without add up to the sources
      checked. */
  lemma RecordedPartitions(r: Report, a: Auditor)
    requires Recorded(r, a)
    ensures r.sourcesWith + r.sourcesWithout == r.sourcesChecked == |r.sources|
  {
    hide StringList, DetailsAccounted, CurrentnessConsistent, SumRows, FileKeys;
    DistinctCount(StringList(r.sources));
    assert |FileKeys(r.byFile) + Members(r.without)| == |FileKeys(r.byFile)| + |Members(r.without)|;
  }

  // The same on the sources alone, which determine the winners.
  ghost predicate AcceptableSources(sources: seq<Source>, run: Run, a: Auditor) {
    forall winners :: Chosen(winners, sources) ==> Acceptable(winners, sources, run, a)
  }

  lemma SourcesDecide(winners: map<string, Candidate>, sources: seq<Source>, run: Run, a: Auditor)
    requires Best(winners, AllCandidates(sources))
    ensures AcceptableSources(sources, run, a) <==> Acceptable(winners, sources, run, a)
  {
    hide Best, Acceptable, AllCandidates, Chosen;
    BestIffChosen(winners, sources);
    forall w | Chosen(w, sources)
      ensures w == winners
    {
      BestIffChosen(w, sources);
      BestIsUnique(w, winners, AllCandidates(sources));
    }
  }

  /** Inventory and audit one after the other: the sources, the run and what the auditor knows decide. */
  method InventoryThenAudit(sources: seq<Source>, run: Run, a: Auditor) returns (recorded: bool)
    requires a.isRef == run.isRef
    ensures recorded <==> AcceptableSources(sources, run, a)
    ensures exists winners :: Chosen(winners, sources)
  {
    hide *;
    var r := InventorySources(sources, run);
    ghost var winners :| IsInventory(r, winners, sources, run);
    InventoryParts(r, winners, sources, run);
    BestIffChosen(winners, sources);
    recorded := AuditInventory(r, a);
    AuditDecides(r, winners, sources, run, a);
    SourcesDecide(winners, sources, run, a);
  }
}
