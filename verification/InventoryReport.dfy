/** The inventory report, as its script writes it and as the completion audit checks it. */
module InventoryReport {
  import opened Lists
  import opened RowTally
  import opened Inventory
  import opened Sorting
  import opened Jsons
  import opened Text

  datatype Markers = Markers(headings: nat, tableRows: nat, numbered: nat, bullets: nat, total: nat)

  // A source without rows. A source that could not be read has no marker counts.
  datatype Detail = Detail(path: string, markers: Option<Markers>, refs: Option<seq<string>>)

  datatype Claim = Claim(path: string, line: nat, date: Date, kind: string, blocking: bool, snippet: string)

  datatype Currentness = Currentness(
    checkedAt: Option<Date>, claims: seq<Claim>, claimsTotal: nat, sources: seq<string>, sourcesTotal: nat,
    blockingTotal: nat, blockingSources: seq<string>, blockingSourcesTotal: nat, current: bool)

  datatype SourceError = SourceError(path: string, error: string)

  datatype Report = Report(
    schema: int, inventoryId: string, catalogId: string, status: string, result: string, policy: string,
    expected: int, rows: nat, missing: int,
    sources: seq<string>, currentness: Currentness,
    sourcesChecked: nat, sourcesWith: nat, sourcesWithout: nat, unstructuredSources: nat, unstructuredMarkers: nat,
    trackedSources: nat,
    without: seq<string>, details: seq<Detail>, errorsTotal: nat, errors: seq<SourceError>,
    byFile: seq<KeyCount>, byRule: seq<KeyCount>, candidates: Option<seq<Candidate>>)

  const SCHEMA := 1
  const INVENTORY_ID := "goal-loop-explicit-source-row-candidates-v1"
  const COMPLETE := "COMPLETE"
  const INCOMPLETE := "INCOMPLETE"
  const MATCH := "EXPLICIT_SOURCE_ROWS_MATCH_EXPECTED"
  const INSUFFICIENT := "EXPLICIT_SOURCE_ROWS_INSUFFICIENT"

  // What the run is told besides the sources. The policy is the fixed paragraph on what counts as an explicit row.
  datatype Run = Run(
    catalogId: string, expected: int, policy: string, refs: seq<string>, isRef: string -> bool,
    checkedAt: Option<Date>, includeRows: bool)

  // ---- the producer ----

  function Headings(): Line -> bool { (l: Line) => l.heading }

  function TableRows(): Line -> bool { (l: Line) => l.tableRow }

  function Numbered(): Line -> bool { (l: Line) => l.numbered }

  function Bullets(): Line -> bool { (l: Line) => l.bullet }

  function MarkersOf(lines: seq<Line>): Markers {
    var h, t := CountIf(lines, Headings()), CountIf(lines, TableRows());
    var n, b := CountIf(lines, Numbered()), CountIf(lines, Bullets());
    Markers(h, t, n, b, h + t + n + b)
  }

  // Each count is the number of lines with that marker; one line may have several markers.
  lemma MarkersCount(lines: seq<Line>)
    ensures var m := MarkersOf(lines);
            && m.headings == |set i | 0 <= i < |lines| && lines[i].heading|
            && m.tableRows == |set i | 0 <= i < |lines| && lines[i].tableRow|
            && m.numbered == |set i | 0 <= i < |lines| && lines[i].numbered|
            && m.bullets == |set i | 0 <= i < |lines| && lines[i].bullet|
            && m.total == m.headings + m.tableRows + m.numbered + m.bullets
  {
    CountsPlaces(lines, Headings(), set i | 0 <= i < |lines| && lines[i].heading);
    CountsPlaces(lines, TableRows(), set i | 0 <= i < |lines| && lines[i].tableRow);
    CountsPlaces(lines, Numbered(), set i | 0 <= i < |lines| && lines[i].numbered);
    CountsPlaces(lines, Bullets(), set i | 0 <= i < |lines| && lines[i].bullet);
  }

  lemma MarkedIffSome(lines: seq<Line>)
    ensures MarkersOf(lines).total > 0 <==>
            exists l :: l in lines && (l.heading || l.tableRow || l.numbered || l.bullet)
  {
    CountsSome(lines, Headings());
    CountsSome(lines, TableRows());
    CountsSome(lines, Numbered());
    CountsSome(lines, Bullets());
    assert forall l: Line :: Headings()(l) == l.heading && TableRows()(l) == l.tableRow;
    assert forall l: Line :: Numbered()(l) == l.numbered && Bullets()(l) == l.bullet;
  }

  // unstructured_marker_counts: four counters over the lines.
  method UnstructuredMarkerCounts(lines: seq<Line>) returns (m: Markers)
    ensures m == MarkersOf(lines)
    ensures m.headings == |set i | 0 <= i < |lines| && lines[i].heading|
    ensures m.tableRows == |set i | 0 <= i < |lines| && lines[i].tableRow|
    ensures m.numbered == |set i | 0 <= i < |lines| && lines[i].numbered|
    ensures m.bullets == |set i | 0 <= i < |lines| && lines[i].bullet|
    ensures m.total == m.headings + m.tableRows + m.numbered + m.bullets
  {
    var h: nat, t: nat, n: nat, b: nat := 0, 0, 0, 0;
    for i := 0 to |lines|
      invariant h == CountIf(lines[..i], Headings()) && t == CountIf(lines[..i], TableRows())
      invariant n == CountIf(lines[..i], Numbered()) && b == CountIf(lines[..i], Bullets())
    {
      assert lines[..i + 1][..i] == lines[..i];
      if lines[i].heading {
        h := h + 1;
      }
      if lines[i].tableRow {
        t := t + 1;
      }
      if lines[i].numbered {
        n := n + 1;
      }
      if lines[i].bullet {
        b := b + 1;
      }
    }
    assert lines[..|lines|] == lines;
    m := Markers(h, t, n, b, h + t + n + b);
    MarkersCount(lines);
  }

  function MarkersBySource(sources: seq<Source>): map<string, Markers> {
    if sources == [] then map[] else
      var s := sources[|sources| - 1];
      var before := MarkersBySource(sources[..|sources| - 1]);
      if s.lines.None? then before else before[s.path := MarkersOf(s.lines.value)]
  }

  function Paths(sources: seq<Source>): seq<string> {
    seq(|sources|, i requires 0 <= i < |sources| => sources[i].path)
  }

  function Errors(sources: seq<Source>): seq<SourceError> {
    if sources == [] then [] else
      var s := sources[|sources| - 1];
      Errors(sources[..|sources| - 1]) + if s.lines.None? then [SourceError(s.path, s.error)] else []
  }

  datatype ClaimKind = ScheduledDue | Forecast | Snapshot | Future

  const FORECAST_WORDS := ["예측", "전망"]
  const SNAPSHOT_WORDS := ["작성일", "보고서 작성일", "분석 일자", "분석 시각", "리포트", "평가"]

  predicate ContainsAny(text: string, words: seq<string>) {
    exists i :: 0 <= i < |words| && Contains(text, words[i])
  }

  // classify_future_date_claim
  function Classify(line: string): ClaimKind {
    var lowered := Lower(line);
    if Contains(lowered, "due =") || Contains(lowered, "deadline") then ScheduledDue
    else if Contains(lowered, "forecast") || Contains(lowered, "prediction") || ContainsAny(line, FORECAST_WORDS)
    then Forecast
    else if Contains(lowered, "generated") || ContainsAny(line, SNAPSHOT_WORDS) then Snapshot
    else Future
  }

  function KindName(k: ClaimKind): string {
    match k
    case ScheduledDue => "scheduled_due_date"
    case Forecast => "forecast_date"
    case Snapshot => "source_snapshot_date"
    case Future => "future_date"
  }

  // A due date or a forecast may lie in the future; a report's own date may not.
  function Blocking(k: ClaimKind): bool {
    k.Snapshot? || k.Future?
  }

  function ClaimOf(date: Date, text: string, path: string, line: nat): Claim {
    var kind := Classify(text);
    Claim(path, line, date, KindName(kind), Blocking(kind), Strip(text))
  }

  function LineClaims(dates: seq<Date>, text: string, path: string, line: nat, checkedAt: Date): seq<Claim> {
    if dates == [] then [] else
      var d := dates[|dates| - 1];
      LineClaims(dates[..|dates| - 1], text, path, line, checkedAt) +
      if d > checkedAt then [ClaimOf(d, text, path, line)] else []
  }

  // future_date_claims of the first k lines of a source.
  function SourceClaims(lines: seq<Line>, path: string, checkedAt: Date, k: nat): seq<Claim>
    requires k <= |lines|
  {
    if k == 0 then [] else
      SourceClaims(lines, path, checkedAt, k - 1) +
      LineClaims(lines[k - 1].dates, lines[k - 1].text, path, k, checkedAt)
  }

  function AllClaims(sources: seq<Source>, checkedAt: Option<Date>): seq<Claim> {
    if sources == [] || checkedAt.None? then [] else
      var s := sources[|sources| - 1];
      AllClaims(sources[..|sources| - 1], checkedAt) +
      if s.lines.None? then [] else SourceClaims(s.lines.value, s.path, checkedAt.value, |s.lines.value|)
  }

  function Blocks(): Claim -> bool { (c: Claim) => c.blocking }

  function ClaimPaths(claims: seq<Claim>): set<string> {
    set c | c in claims :: c.path
  }

  function BlockingPaths(claims: seq<Claim>): set<string> {
    set c | c in claims && c.blocking :: c.path
  }

  ghost predicate IsCurrentness(now: Currentness, claims: seq<Claim>, checkedAt: Option<Date>) {
    && now.checkedAt == checkedAt && now.claims == claims && now.claimsTotal == |claims|
    && Sorted(now.sources, ClaimPaths(claims)) && now.sourcesTotal == |now.sources|
    && now.blockingTotal == CountIf(claims, Blocks())
    && Sorted(now.blockingSources, BlockingPaths(claims)) && now.blockingSourcesTotal == |now.blockingSources|
    && now.current == (checkedAt.None? || now.blockingTotal == 0)
  }

  function FileOf(): Candidate -> string { (c: Candidate) => c.path }

  function RuleOf(): Candidate -> string { (c: Candidate) => c.rule }

  ghost function WithRows(winners: map<string, Candidate>): set<string> {
    set id | id in winners :: winners[id].path
  }

  function Lacks(withRows: set<string>): string -> bool { (p: string) => p !in withRows }

  function HasMarkers(): Detail -> bool { (d: Detail) => d.markers.Some? && d.markers.value.total > 0 }

  function HasTracking(): Detail -> bool {
    (d: Detail) => d.markers.Some? && d.markers.value.total > 0 && d.refs.Some? && d.refs.value != []
  }

  function DetailOf(path: string, markers: map<string, Markers>, refs: seq<string>): Detail {
    if path !in markers then Detail(path, None, None)
    else Detail(path, Some(markers[path]), if markers[path].total > 0 then Some(refs) else None)
  }

  function TotalMarkers(ds: seq<Detail>): nat {
    if ds == [] then 0 else
      TotalMarkers(ds[..|ds| - 1]) + match ds[|ds| - 1].markers case None => 0 case Some(m) => m.total
  }

  function RowIds(rows: seq<Candidate>): seq<string> {
    seq(|rows|, i requires 0 <= i < |rows| => rows[i].id)
  }

  // The winners, each once, in order of their identifiers.
  ghost predicate RowsListed(rows: seq<Candidate>, winners: map<string, Candidate>) {
    && Sorted(RowIds(rows), winners.Keys)
    && forall i :: 0 <= i < |rows| ==> rows[i].id in winners && rows[i] == winners[rows[i].id]
  }

  // The report of a run: every field in terms of the sources and the best candidate per id.
  ghost predicate IsInventory(r: Report, winners: map<string, Candidate>, sources: seq<Source>, run: Run) {
    && Best(winners, AllCandidates(sources))
    && r.schema == SCHEMA && r.inventoryId == INVENTORY_ID && r.policy == run.policy
    && r.catalogId == run.catalogId && r.expected == run.expected
    && r.rows == |winners|
    && r.errors == Errors(sources) && r.errorsTotal == |r.errors|
    && r.status == (if r.rows == r.expected && r.errors == [] then COMPLETE else INCOMPLETE)
    && r.result == (if r.rows == r.expected && r.errors == [] then MATCH else INSUFFICIENT)
    && r.missing == (if r.expected - r.rows > 0 then r.expected - r.rows else 0)
    && r.sources == Sort(Ascending(), Paths(sources))
    && IsCurrentness(r.currentness, AllClaims(sources, run.checkedAt), run.checkedAt)
    && Tally(r.byFile, winners, FileOf()) && InOrder(r.byFile)
    && Tally(r.byRule, winners, RuleOf()) && InOrder(r.byRule)
    && r.without == Sort(Ascending(), Filter(Paths(sources), Lacks(WithRows(winners))))
    && |r.details| == |r.without|
    && (forall i :: 0 <= i < |r.without| ==>
          r.details[i] == DetailOf(r.without[i], MarkersBySource(sources), Filter(run.refs, run.isRef)))
    && r.sourcesChecked == |sources|
    && r.sourcesWith == |WithRows(winners)|
    && r.sourcesWithout == |r.without|
    && r.unstructuredSources == CountIf(r.details, HasMarkers())
    && r.unstructuredMarkers == TotalMarkers(r.details)
    && r.trackedSources == CountIf(r.details, HasTracking())
    && (if run.includeRows then r.candidates.Some? && RowsListed(r.candidates.value, winners) else r.candidates.None?)
  }

  // The part of inventory_sources that reads the sources for markers, errors and dates.
  method ReadSources(sources: seq<Source>, checkedAt: Option<Date>)
    returns (markers: map<string, Markers>, errors: seq<SourceError>, claims: seq<Claim>)
    ensures markers == MarkersBySource(sources) && errors == Errors(sources)
    ensures claims == AllClaims(sources, checkedAt)
  {
    markers, errors, claims := map[], [], [];
    for s := 0 to |sources|
      invariant markers == MarkersBySource(sources[..s]) && errors == Errors(sources[..s])
      invariant claims == AllClaims(sources[..s], checkedAt)
    {
      hide MarkersOf, LineClaims;
      assert sources[..s + 1][..s] == sources[..s];
      if sources[s].lines.None? {
        errors := errors + [SourceError(sources[s].path, sources[s].error)];
      } else {
        var lines := sources[s].lines.value;
        var m := UnstructuredMarkerCounts(lines);
        markers := markers[sources[s].path := m];
        if checkedAt.Some? {
          var here := FutureDateClaims(lines, sources[s].path, checkedAt.value);
          claims := claims + here;
        }
      }
    }
    assert sources[..|sources|] == sources;
  }

  // ---- what the claims say ----

  function After(checkedAt: Date): Date -> bool { (d: Date) => d > checkedAt }

  function AtLine(n: nat): Claim -> bool { (c: Claim) => c.line == n }

  function DatesOf(claims: seq<Claim>): seq<Date> {
    seq(|claims|, i requires 0 <= i < |claims| => claims[i].date)
  }

  // The words of the line decide: a due date first, then a forecast, then a report's own date. Only the last and
  // what is none of the three block.
  ghost predicate Classified(kind: string, blocking: bool, text: string) {
    var lowered := Lower(text);
    var due := Contains(lowered, "due =") || Contains(lowered, "deadline");
    var forecast := Contains(lowered, "forecast") || Contains(lowered, "prediction")
                    || exists w :: w in FORECAST_WORDS && Contains(text, w);
    var snapshot := Contains(lowered, "generated") || exists w :: w in SNAPSHOT_WORDS && Contains(text, w);
    && (kind == "scheduled_due_date" <==> due)
    && (kind == "forecast_date" <==> forecast && !due)
    && (kind == "source_snapshot_date" <==> snapshot && !due && !forecast)
    && (kind == "future_date" <==> !due && !forecast && !snapshot)
    && (blocking <==> !due && !forecast)
  }

  lemma AnyIsSome(text: string, words: seq<string>)
    ensures ContainsAny(text, words) <==> exists w :: w in words && Contains(text, w)
  {
    hide Contains;
    if w :| w in words && Contains(text, w) {
      var i :| 0 <= i < |words| && words[i] == w;
      assert Contains(text, words[i]);
    }
  }

  lemma ClassifyMeans(text: string)
    ensures Classified(KindName(Classify(text)), Blocking(Classify(text)), text)
  {
    hide Contains, Lower, ContainsAny, FORECAST_WORDS, SNAPSHOT_WORDS;
    AnyIsSome(text, FORECAST_WORDS);
    AnyIsSome(text, SNAPSHOT_WORDS);
  }

  lemma {:induction false} LineClaimsSay(dates: seq<Date>, text: string, path: string, line: nat, checkedAt: Date)
    ensures var claims := LineClaims(dates, text, path, line, checkedAt);
            && DatesOf(claims) == Filter(dates, After(checkedAt))
            && forall c :: c in claims ==>
                 c.path == path && c.line == line && c.snippet == Strip(text) && Classified(c.kind, c.blocking, text)
  {
    hide Classified, Classify, KindName, Blocking, Strip;
    ClassifyMeans(text);
    if dates != [] {
      LineClaimsSay(dates[..|dates| - 1], text, path, line, checkedAt);
    }
  }

  // Every claim is one of its line, and the dates claimed for a line are its later dates in order.
  lemma {:induction false} SourceClaimsSay(lines: seq<Line>, path: string, checkedAt: Date, k: nat)
    requires k <= |lines|
    ensures var claims := SourceClaims(lines, path, checkedAt, k);
            && (forall c :: c in claims ==>
                  && 1 <= c.line <= k && c.path == path && c.snippet == Strip(lines[c.line - 1].text)
                  && Classified(c.kind, c.blocking, lines[c.line - 1].text))
            && (forall n :: 1 <= n <= k ==>
                  DatesOf(Filter(claims, AtLine(n))) == Filter(lines[n - 1].dates, After(checkedAt)))
            && forall i, j :: 0 <= i < j < |claims| ==> claims[i].line <= claims[j].line
  {
    hide LineClaims, Classified, Strip;
    if k > 0 {
      var l := lines[k - 1];
      var before, here := SourceClaims(lines, path, checkedAt, k - 1), LineClaims(l.dates, l.text, path, k, checkedAt);
      SourceClaimsSay(lines, path, checkedAt, k - 1);
      LineClaimsSay(l.dates, l.text, path, k, checkedAt);
      forall n | 1 <= n <= k
        ensures DatesOf(Filter(before + here, AtLine(n))) == Filter(lines[n - 1].dates, After(checkedAt))
      {
        FilterConcat(before, here, AtLine(n));
        if n == k {
          FilterNone(before, AtLine(n));
          FilterAll(here, AtLine(n));
        } else {
          FilterNone(here, AtLine(n));
        }
      }
    }
  }

  // future_date_claims: a loop over lines and the dates in them.
  method FutureDateClaims(lines: seq<Line>, path: string, checkedAt: Date) returns (claims: seq<Claim>)
    ensures claims == SourceClaims(lines, path, checkedAt, |lines|)
    ensures forall c :: c in claims ==>
              && 1 <= c.line <= |lines| && c.path == path && c.snippet == Strip(lines[c.line - 1].text)
              && Classified(c.kind, c.blocking, lines[c.line - 1].text)
    ensures forall n :: 1 <= n <= |lines| ==>
              DatesOf(Filter(claims, AtLine(n))) == Filter(lines[n - 1].dates, After(checkedAt))
    ensures forall i, j :: 0 <= i < j < |claims| ==> claims[i].line <= claims[j].line
  {
    hide Classify, Strip;
    claims := [];
    for i := 0 to |lines|
      invariant claims == SourceClaims(lines, path, checkedAt, i)
    {
      ghost var before := claims;
      var l := lines[i];
      for j := 0 to |l.dates|
        invariant claims == before + LineClaims(l.dates[..j], l.text, path, i + 1, checkedAt)
      {
        assert l.dates[..j + 1][..j] == l.dates[..j];
        if l.dates[j] > checkedAt {
          var kind := Classify(l.text);
          claims := claims + [Claim(path, i + 1, l.dates[j], KindName(kind), Blocking(kind), Strip(l.text))];
        }
      }
      assert l.dates[..|l.dates|] == l.dates;
    }
    SourceClaimsSay(lines, path, checkedAt, |lines|);
  }

  // The source_currentness block.
  method AssessCurrentness(claims: seq<Claim>, checkedAt: Option<Date>) returns (now: Currentness)
    ensures IsCurrentness(now, claims, checkedAt)
  {
    hide Sorted;
    var blocking := CountIf(claims, Blocks());
    var sources := SortedSet(ClaimPaths(claims));
    var blockingSources := SortedSet(BlockingPaths(claims));
    now := Currentness(checkedAt, claims, |claims|, sources, |sources|, blocking, blockingSources, |blockingSources|,
                       checkedAt.None? || blocking == 0);
  }

  method ListRows(winners: map<string, Candidate>) returns (rows: seq<Candidate>)
    requires forall id :: id in winners ==> winners[id].id == id
    ensures RowsListed(rows, winners)
  {
    var ids := SortedSet(winners.Keys);
    forall i | 0 <= i < |ids|
      ensures ids[i] in winners
    {
      assert ids[i] in Members(ids);
    }
    rows := seq(|ids|, i requires 0 <= i < |ids| && ids[i] in winners => winners[ids[i]]);
    assert RowIds(rows) == ids;
  }

  lemma WinnersNamed(winners: map<string, Candidate>, seen: seq<Candidate>)
    requires Best(winners, seen)
    ensures forall id :: id in winners ==> winners[id].id == id
  {
  }

  method BuildDetails(without: seq<string>, markers: map<string, Markers>, refs: seq<string>) returns (ds: seq<Detail>)
    ensures |ds| == |without| && forall i :: 0 <= i < |ds| ==> ds[i] == DetailOf(without[i], markers, refs)
  {
    ds := [];
    for i := 0 to |without|
      invariant |ds| == i && forall j :: 0 <= j < i ==> ds[j] == DetailOf(without[j], markers, refs)
    {
      ds := ds + [DetailOf(without[i], markers, refs)];
    }
  }

  /** inventory_sources */
  method InventorySources(sources: seq<Source>, run: Run) returns (r: Report)
    ensures exists winners :: IsInventory(r, winners, sources, run)
  {
    hide Best, Tally, InOrder, MarkersOf, IsCurrentness, DetailOf, RowsListed, COMPLETE, INCOMPLETE, MATCH,
         INSUFFICIENT, INVENTORY_ID, Sort, Filter, CountIf, TotalMarkers, MarkersBySource, Errors, AllClaims,
         AllCandidates, Paths;
    var best := CollectCandidates(sources);
    WinnersNamed(best, AllCandidates(sources));
    var markers, errors, claims := ReadSources(sources, run.checkedAt);
    var rows := ListRows(best);
    var byFile := TallyRows(best, FileOf());
    var byRule := TallyRows(best, RuleOf());
    var withRows := set id | id in best :: best[id].path;
    var without := Sort(Ascending(), Filter(Paths(sources), Lacks(withRows)));
    var details := BuildDetails(without, markers, Filter(run.refs, run.isRef));
    var now := AssessCurrentness(claims, run.checkedAt);
    var complete := |best| == run.expected && errors == [];
    r := Report(SCHEMA, INVENTORY_ID, run.catalogId, if complete then COMPLETE else INCOMPLETE,
                if complete then MATCH else INSUFFICIENT, run.policy, run.expected, |best|,
                if run.expected - |best| > 0 then run.expected - |best| else 0,
                Sort(Ascending(), Paths(sources)), now,
                |sources|, |withRows|, |without|, CountIf(details, HasMarkers()), TotalMarkers(details),
                CountIf(details, HasTracking()),
                without, details, |errors|, errors, byFile, byRule, if run.includeRows then Some(rows) else None);
    assert IsInventory(r, best, sources, run);
  }

  // ---- the report as JSON ----

  function Pad(n: nat, width: nat): string {
    if width == 0 then "" else Pad(n / 10, width - 1) + [('0' as int + n % 10) as char]
  }

  // date.isoformat
  function Iso(d: Date): string {
    Pad(d / 10_000, 4) + "-" + Pad(d / 100 % 100, 2) + "-" + Pad(d % 100, 2)
  }

  function List<T>(s: seq<T>, f: T -> Json): Json {
    Arr(seq(|s|, i requires 0 <= i < |s| => f(s[i])))
  }

  function ClaimJson(c: Claim): Json {
    Obj(map["path" := Str(c.path), "line_ref" := Num(c.line), "date" := Str(Iso(c.date)), "claim_kind" := Str(c.kind),
            "currentness_blocking" := Flag(c.blocking), "snippet" := Str(c.snippet)])
  }

  function CurrentnessJson(now: Currentness): Json {
    Obj(map["evaluated" := Flag(now.checkedAt.Some?),
            "checked_at" := if now.checkedAt.Some? then Str(Iso(now.checkedAt.value)) else Null,
            "future_date_claims_total" := Num(now.claimsTotal),
            "sources_with_future_date_claims" := Strs(now.sources),
            "sources_with_future_date_claims_total" := Num(now.sourcesTotal),
            "blocking_future_date_claims_total" := Num(now.blockingTotal),
            "sources_with_blocking_future_date_claims" := Strs(now.blockingSources),
            "sources_with_blocking_future_date_claims_total" := Num(now.blockingSourcesTotal),
            "current" := Flag(now.current),
            "future_date_claims" := List(now.claims, ClaimJson)])
  }

  function MarkersJson(m: Markers): Dict {
    map["markdown_headings" := Num(m.headings), "markdown_table_rows" := Num(m.tableRows),
        "numbered_items" := Num(m.numbered), "bullet_items" := Num(m.bullets),
        "unstructured_marker_total" := Num(m.total)]
  }

  function DetailJson(d: Detail): Json {
    Obj((if d.markers.Some? then MarkersJson(d.markers.value) else map[])
        + (if d.refs.Some? then map["tracking_issue_refs" := Strs(d.refs.value)] else map[])
        + map["path" := Str(d.path)])
  }

  function ErrorJson(e: SourceError): Json {
    Obj(map["path" := Str(e.path), "error" := Str(e.error)])
  }

  function CountJson(name: string): KeyCount -> Json {
    (k: KeyCount) => Obj(map["unique_candidate_rows" := Num(k.rows)][name := Str(k.key)])
  }

  // Candidate.to_json
  function CandidateJson(c: Candidate): Json {
    Obj((if c.hint != "" then map["severity_hint" := Str(c.hint)] else map[])
        + map["candidate_id" := Str(c.id), "title" := Str(c.title), "extraction_rule" := Str(c.rule),
              "source" := Obj(map["path" := Str(c.path), "line_refs" := Arr([Num(c.line)])]),
              "snippet" := Str(c.snippet)])
  }

  function CoverageJson(r: Report): Json {
    Obj(map["sources_checked" := Num(r.sourcesChecked),
            "sources_with_candidates" := Num(r.sourcesWith),
            "sources_without_candidates" := Num(r.sourcesWithout),
            "unstructured_sources_without_candidates" := Num(r.unstructuredSources),
            "unstructured_markers_without_candidates" := Num(r.unstructuredMarkers),
            "no_candidate_sources_with_tracking_issue_refs" := Num(r.trackedSources)])
  }

  // The payload up to the optional candidate rows.
  function HeaderJson(r: Report): Dict {
    map["schema_version" := Num(r.schema),
        "inventory_id" := Str(r.inventoryId),
        "source_catalog_id" := Str(r.catalogId),
        "status" := Str(r.status),
        "result" := Str(r.result),
        "extraction_policy" := Str(r.policy),
        "expected_findings_total" := Num(r.expected),
        "unique_candidate_rows" := Num(r.rows),
        "missing_candidate_rows" := Num(r.missing)]
  }

  function BodyJson(r: Report): Dict {
    map["prompt_sources_checked" := Strs(r.sources),
        "source_currentness" := CurrentnessJson(r.currentness),
        "source_candidate_coverage" := CoverageJson(r),
        "sources_without_candidates" := Strs(r.without),
        "sources_without_candidate_details" := List(r.details, DetailJson),
        "source_errors_total" := Num(r.errorsTotal),
        "source_errors" := List(r.errors, ErrorJson),
        "candidates_by_file" := List(r.byFile, CountJson("path")),
        "candidates_by_rule" := List(r.byRule, CountJson("rule"))]
  }

  function AsJson(r: Report): Json {
    Obj((if r.candidates.Some? then map["candidate_rows" := List(r.candidates.value, CandidateJson)] else map[])
        + HeaderJson(r) + BodyJson(r))
  }
}
