/** Which inputs of an inventory run make its report name a local path. */
module InventoryLeaks {
  import opened Inventory
  import opened InventoryFacts
  import opened InventoryReport
  import opened Jsons
  import opened Lists
  import opened RowTally
  import opened Sorting
  import opened Text

  // ---- the texts of a report ----

  ghost predicate SomeText(s: seq<string>, local: string -> bool) {
    exists x :: x in s && local(x)
  }

  ghost predicate SomeOf<T>(s: seq<T>, leaks: T -> bool) {
    exists x :: x in s && leaks(x)
  }

  ghost function ClaimLeaks(local: string -> bool): Claim -> bool {
    (c: Claim) => local(c.path) || local(Iso(c.date)) || local(c.kind) || local(c.snippet)
  }

  ghost predicate CurrentnessLeaks(now: Currentness, local: string -> bool) {
    || (now.checkedAt.Some? && local(Iso(now.checkedAt.value)))
    || SomeText(now.sources, local) || SomeText(now.blockingSources, local)
    || SomeOf(now.claims, ClaimLeaks(local))
  }

  ghost function DetailLeaks(local: string -> bool): Detail -> bool {
    (d: Detail) => local(d.path) || (d.refs.Some? && SomeText(d.refs.value, local))
  }

  ghost function ErrorLeaks(local: string -> bool): SourceError -> bool {
    (e: SourceError) => local(e.path) || local(e.error)
  }

  ghost function KeyLeaks(local: string -> bool): KeyCount -> bool {
    (k: KeyCount) => local(k.key)
  }

  ghost function RowLeaks(local: string -> bool): Candidate -> bool {
    (c: Candidate) =>
      local(c.id) || local(c.title) || local(c.rule) || local(c.path) || local(c.snippet)
      || (c.hint != "" && local(c.hint))
  }

  ghost predicate HeaderLeaks(r: Report, local: string -> bool) {
    local(r.inventoryId) || local(r.catalogId) || local(r.status) || local(r.result) || local(r.policy)
  }

  ghost predicate BodyLeaks(r: Report, local: string -> bool) {
    || SomeText(r.sources, local) || CurrentnessLeaks(r.currentness, local) || SomeText(r.without, local)
    || SomeOf(r.details, DetailLeaks(local)) || SomeOf(r.errors, ErrorLeaks(local))
    || SomeOf(r.byFile, KeyLeaks(local)) || SomeOf(r.byRule, KeyLeaks(local))
  }

  ghost predicate TextsLeak(r: Report, local: string -> bool) {
    || HeaderLeaks(r, local) || BodyLeaks(r, local)
    || (r.candidates.Some? && SomeOf(r.candidates.value, RowLeaks(local)))
  }

  // ---- the recursive search finds exactly those ----

  ghost predicate FieldLeaks(d: Dict, k: string, local: string -> bool) {
    k in d && Leaks(d[k], local)
  }

  lemma ObjLeaks(d: Dict, local: string -> bool)
    ensures Leaks(Obj(d), local) <==> exists k :: FieldLeaks(d, k, local)
  {
    if Leaks(Obj(d), local) {
      var k :| k in d && Leaks(d[k], local);
      assert FieldLeaks(d, k, local);
    }
  }

  // Tables without common keys.
  lemma JoinedLeaks(d: Dict, e: Dict, local: string -> bool)
    requires d.Keys !! e.Keys
    ensures Leaks(Obj(d + e), local) <==> Leaks(Obj(d), local) || Leaks(Obj(e), local)
  {
    hide Leaks;
    ObjLeaks(d, local);
    ObjLeaks(e, local);
    ObjLeaks(d + e, local);
    forall k
      ensures FieldLeaks(d + e, k, local) <==> FieldLeaks(d, k, local) || FieldLeaks(e, k, local)
    {
    }
  }

  lemma StrsLeak(s: seq<string>, local: string -> bool)
    ensures Leaks(Strs(s), local) <==> SomeText(s, local)
  {
    var items := Strs(s).items;
    assert forall i :: 0 <= i < |s| ==> Leaks(items[i], local) == local(s[i]);
    if SomeText(s, local) {
      var x :| x in s && local(x);
      var i :| 0 <= i < |s| && s[i] == x;
      assert Leaks(items[i], local);
    }
  }

  lemma ListLeaks<T>(s: seq<T>, json: T -> Json, leaks: T -> bool, local: string -> bool)
    requires forall x :: x in s ==> Leaks(json(x), local) == leaks(x)
    ensures Leaks(List(s, json), local) <==> SomeOf(s, leaks)
  {
    var items := List(s, json).items;
    assert forall i :: 0 <= i < |s| ==> Leaks(items[i], local) == leaks(s[i]);
    if SomeOf(s, leaks) {
      var x :| x in s && leaks(x);
      var i :| 0 <= i < |s| && s[i] == x;
      assert Leaks(items[i], local);
    }
  }

  lemma ClaimJsonLeaks(c: Claim, local: string -> bool)
    ensures Leaks(ClaimJson(c), local) <==> ClaimLeaks(local)(c)
  {
    hide Iso;
    var d := ClaimJson(c).fields;
    assert d["path"] == Str(c.path) && d["date"] == Str(Iso(c.date));
    assert d["claim_kind"] == Str(c.kind) && d["snippet"] == Str(c.snippet);
  }

  lemma ErrorJsonLeaks(e: SourceError, local: string -> bool)
    ensures Leaks(ErrorJson(e), local) <==> ErrorLeaks(local)(e)
  {
    var d := ErrorJson(e).fields;
    assert d["path"] == Str(e.path) && d["error"] == Str(e.error);
  }

  lemma CountJsonLeaks(name: string, k: KeyCount, local: string -> bool)
    ensures Leaks(CountJson(name)(k), local) <==> KeyLeaks(local)(k)
  {
    var d := CountJson(name)(k).fields;
    assert d[name] == Str(k.key);
  }

  lemma DetailJsonLeaks(x: Detail, local: string -> bool)
    ensures Leaks(DetailJson(x), local) <==> DetailLeaks(local)(x)
  {
    var d := DetailJson(x).fields;
    assert d["path"] == Str(x.path);
    if x.refs.Some? {
      StrsLeak(x.refs.value, local);
      assert d["tracking_issue_refs"] == Strs(x.refs.value);
    }
  }

  lemma CandidateJsonLeaks(c: Candidate, local: string -> bool)
    ensures Leaks(CandidateJson(c), local) <==> RowLeaks(local)(c)
  {
    var d := CandidateJson(c).fields;
    assert d["candidate_id"] == Str(c.id) && d["title"] == Str(c.title) && d["extraction_rule"] == Str(c.rule);
    assert d["snippet"] == Str(c.snippet);
    SourceJsonLeaks(c, local);
    assert Leaks(d["source"], local) == local(c.path);
    if c.hint != "" {
      assert d["severity_hint"] == Str(c.hint);
    }
  }

  lemma SourceJsonLeaks(c: Candidate, local: string -> bool)
    ensures Leaks(Obj(map["path" := Str(c.path), "line_refs" := Arr([Num(c.line)])]), local) <==> local(c.path)
  {
    var d := map["path" := Str(c.path), "line_refs" := Arr([Num(c.line)])];
    assert !Leaks(Num(c.line), local);
    assert !Leaks(Arr([Num(c.line)]), local);
    assert d["path"] == Str(c.path) && d["line_refs"] == Arr([Num(c.line)]);
  }

  lemma CurrentnessJsonLeaks(now: Currentness, local: string -> bool)
    ensures Leaks(CurrentnessJson(now), local) <==> CurrentnessLeaks(now, local)
  {
    hide Iso, Strs, List, CountIf, SomeText, SomeOf, ClaimLeaks;
    StrsLeak(now.sources, local);
    StrsLeak(now.blockingSources, local);
    forall c | c in now.claims
      ensures Leaks(ClaimJson(c), local) == ClaimLeaks(local)(c)
    {
      ClaimJsonLeaks(c, local);
    }
    ListLeaks(now.claims, ClaimJson, ClaimLeaks(local), local);
    var d := CurrentnessJson(now).fields;
    assert d["checked_at"] == if now.checkedAt.Some? then Str(Iso(now.checkedAt.value)) else Null;
    assert d["sources_with_future_date_claims"] == Strs(now.sources);
    assert d["sources_with_blocking_future_date_claims"] == Strs(now.blockingSources);
    assert d["future_date_claims"] == List(now.claims, ClaimJson);
  }

  lemma HeaderJsonLeaks(r: Report, local: string -> bool)
    ensures Leaks(Obj(HeaderJson(r)), local) <==> HeaderLeaks(r, local)
  {
    var d := HeaderJson(r);
    assert d["inventory_id"] == Str(r.inventoryId) && d["source_catalog_id"] == Str(r.catalogId);
    assert d["status"] == Str(r.status) && d["result"] == Str(r.result) && d["extraction_policy"] == Str(r.policy);
  }

  lemma CoverageJsonQuiet(r: Report, local: string -> bool)
    ensures !Leaks(CoverageJson(r), local)
  {
  }

  lemma BodyJsonLeaks(r: Report, local: string -> bool)
    ensures Leaks(Obj(BodyJson(r)), local) <==> BodyLeaks(r, local)
  {
    hide Strs, List, SomeText, SomeOf, CurrentnessLeaks, CurrentnessJson, CoverageJson, DetailJson, CountJson,
         ErrorJson, DetailLeaks, ErrorLeaks, KeyLeaks;
    BodyListsLeak(r, local);
    CoverageJsonQuiet(r, local);
    CurrentnessJsonLeaks(r.currentness, local);
    StrsLeak(r.sources, local);
    StrsLeak(r.without, local);
    var d := BodyJson(r);
    assert d["prompt_sources_checked"] == Strs(r.sources);
    assert d["source_currentness"] == CurrentnessJson(r.currentness);
    assert d["sources_without_candidates"] == Strs(r.without);
    assert d["sources_without_candidate_details"] == List(r.details, DetailJson);
    assert d["source_errors"] == List(r.errors, ErrorJson);
    assert d["candidates_by_file"] == List(r.byFile, CountJson("path"));
    assert d["candidates_by_rule"] == List(r.byRule, CountJson("rule"));
  }

  lemma BodyListsLeak(r: Report, local: string -> bool)
    ensures Leaks(List(r.details, DetailJson), local) <==> SomeOf(r.details, DetailLeaks(local))
    ensures Leaks(List(r.errors, ErrorJson), local) <==> SomeOf(r.errors, ErrorLeaks(local))
    ensures Leaks(List(r.byFile, CountJson("path")), local) <==> SomeOf(r.byFile, KeyLeaks(local))
    ensures Leaks(List(r.byRule, CountJson("rule")), local) <==> SomeOf(r.byRule, KeyLeaks(local))
  {
    hide *;
    forall x | x in r.details
      ensures Leaks(DetailJson(x), local) == DetailLeaks(local)(x)
    {
      DetailJsonLeaks(x, local);
    }
    ListLeaks(r.details, DetailJson, DetailLeaks(local), local);
    forall e | e in r.errors
      ensures Leaks(ErrorJson(e), local) == ErrorLeaks(local)(e)
    {
      ErrorJsonLeaks(e, local);
    }
    ListLeaks(r.errors, ErrorJson, ErrorLeaks(local), local);
    CountsLeak(r.byFile, "path", local);
    CountsLeak(r.byRule, "rule", local);
  }

  lemma CountsLeak(items: seq<KeyCount>, name: string, local: string -> bool)
    ensures Leaks(List(items, CountJson(name)), local) <==> SomeOf(items, KeyLeaks(local))
  {
    hide *;
    forall k | k in items
      ensures Leaks(CountJson(name)(k), local) == KeyLeaks(local)(k)
    {
      CountJsonLeaks(name, k, local);
    }
    ListLeaks(items, CountJson(name), KeyLeaks(local), local);
  }

  lemma RowsJsonLeak(rows: seq<Candidate>, local: string -> bool)
    ensures Leaks(Obj(map["candidate_rows" := List(rows, CandidateJson)]), local) <==> SomeOf(rows, RowLeaks(local))
  {
    hide List, CandidateJson, SomeOf, RowLeaks;
    forall c | c in rows
      ensures Leaks(CandidateJson(c), local) == RowLeaks(local)(c)
    {
      CandidateJsonLeaks(c, local);
    }
    ListLeaks(rows, CandidateJson, RowLeaks(local), local);
    var d := map["candidate_rows" := List(rows, CandidateJson)];
    assert d["candidate_rows"] == List(rows, CandidateJson);
  }

  /** The recursive search through the report finds a local path exactly if one of its texts names one. */
  lemma ReportLeaks(r: Report, local: string -> bool)
    ensures Leaks(AsJson(r), local) <==> TextsLeak(r, local)
  {
    hide List, CandidateJson, SomeOf, RowLeaks, HeaderLeaks, BodyLeaks, Leaks;
    KeysApart(r);
    HeaderJsonLeaks(r, local);
    BodyJsonLeaks(r, local);
    if r.candidates.Some? {
      RowsJsonLeak(r.candidates.value, local);
    } else {
      ObjLeaks(map[], local);
    }
    hide HeaderJson, BodyJson;
    var rows := if r.candidates.Some? then map["candidate_rows" := List(r.candidates.value, CandidateJson)] else map[];
    JoinedLeaks(rows, HeaderJson(r), local);
    JoinedLeaks(rows + HeaderJson(r), BodyJson(r), local);
  }

  lemma KeysApart(r: Report)
    ensures HeaderJson(r).Keys !! BodyJson(r).Keys
    ensures "candidate_rows" !in HeaderJson(r).Keys && "candidate_rows" !in BodyJson(r).Keys
  {
    hide List, Strs, CurrentnessJson, CoverageJson, DetailJson, ErrorJson, CountJson;
  }

  // ---- the texts of a run ----

  // A claim past the check date has a text that leaks.
  ghost predicate DateLeaks(dates: seq<Date>, text: string, checkedAt: Date, local: string -> bool) {
    exists d :: d in dates && d > checkedAt
                && (local(Iso(d)) || local(KindName(Classify(text))) || local(Strip(text)))
  }

  ghost predicate LineLeaks(l: Line, checkedAt: Date, local: string -> bool) {
    DateLeaks(l.dates, l.text, checkedAt, local)
  }

  ghost predicate SourceLeaks(s: Source, checkedAt: Date, local: string -> bool) {
    s.lines.Some? && exists l :: l in s.lines.value && LineLeaks(l, checkedAt, local)
  }

  ghost predicate DatesLeak(sources: seq<Source>, checkedAt: Option<Date>, local: string -> bool) {
    && checkedAt.Some?
    && (local(Iso(checkedAt.value)) || exists s :: s in sources && SourceLeaks(s, checkedAt.value, local))
  }

  // No source's path leaks.
  ghost predicate Quiet(sources: seq<Source>, local: string -> bool) {
    forall s :: s in sources ==> !local(s.path)
  }

  // The texts that do not depend on what was found.
  ghost predicate FixedLeak(winners: map<string, Candidate>, run: Run, local: string -> bool) {
    || local(INVENTORY_ID) || local(run.catalogId) || local(run.policy)
    || local(if |winners| == run.expected then COMPLETE else INCOMPLETE)
    || local(if |winners| == run.expected then MATCH else INSUFFICIENT)
  }

  ghost predicate RulesLeak(winners: map<string, Candidate>, local: string -> bool) {
    exists id :: id in winners && local(winners[id].rule)
  }

  ghost predicate WinnersLeak(winners: map<string, Candidate>, local: string -> bool) {
    exists id :: id in winners && RowLeaks(local)(winners[id])
  }

  ghost predicate TrackingLeaks(winners: map<string, Candidate>, sources: seq<Source>, run: Run,
                                local: string -> bool) {
    SomeText(Filter(run.refs, run.isRef), local) && exists s :: s in sources && NeedsTracking(s, winners)
  }

  // A text the report takes from the run: the fixed ones, the catalog's name, the sources' paths, the dated lines, the
  // tracking references if they are listed, the rules that found something, and the rows if they are included.
  ghost predicate InputsLeak(winners: map<string, Candidate>, sources: seq<Source>, run: Run, local: string -> bool) {
    || FixedLeak(winners, run, local)
    || !Quiet(sources, local)
    || DatesLeak(sources, run.checkedAt, local)
    || TrackingLeaks(winners, sources, run, local)
    || RulesLeak(winners, local)
    || (run.includeRows && WinnersLeak(winners, local))
  }

  lemma SomeOfJoin<T>(a: seq<T>, b: seq<T>, leaks: T -> bool)
    ensures SomeOf(a + b, leaks) <==> SomeOf(a, leaks) || SomeOf(b, leaks)
  {
    assert forall x :: x in a + b <==> x in a || x in b;
  }

  lemma OneLeaks<T>(x: T, leaks: T -> bool)
    ensures SomeOf([x], leaks) <==> leaks(x)
  {
    assert x in [x];
  }

  lemma {:induction false} LineClaimsLeak(dates: seq<Date>, text: string, path: string, line: nat, checkedAt: Date,
                                          local: string -> bool)
    requires !local(path)
    ensures SomeOf(LineClaims(dates, text, path, line, checkedAt), ClaimLeaks(local))
            <==> DateLeaks(dates, text, checkedAt, local)
  {
    hide Classify, KindName, Iso, Strip;
    if dates != [] {
      var t, d := dates[..|dates| - 1], dates[|dates| - 1];
      LineClaimsLeak(t, text, path, line, checkedAt, local);
      assert forall x :: x in dates <==> x in t || x == d;
      var last := if d > checkedAt then [ClaimOf(d, text, path, line)] else [];
      SomeOfJoin(LineClaims(t, text, path, line, checkedAt), last, ClaimLeaks(local));
      OneLeaks(ClaimOf(d, text, path, line), ClaimLeaks(local));
    }
  }

  lemma {:induction false} SourceClaimsLeak(lines: seq<Line>, path: string, checkedAt: Date, k: nat,
                                            local: string -> bool)
    requires k <= |lines| && !local(path)
    ensures SomeOf(SourceClaims(lines, path, checkedAt, k), ClaimLeaks(local))
            <==> exists i :: 0 <= i < k && LineLeaks(lines[i], checkedAt, local)
  {
    hide LineClaims, DateLeaks, SomeOf, ClaimLeaks;
    if k == 0 {
      NothingLeaks(ClaimLeaks(local));
    } else {
      var l := lines[k - 1];
      SourceClaimsLeak(lines, path, checkedAt, k - 1, local);
      LineClaimsLeak(l.dates, l.text, path, k, checkedAt, local);
      assert LineLeaks(l, checkedAt, local) == DateLeaks(l.dates, l.text, checkedAt, local);
      SomeOfJoin(SourceClaims(lines, path, checkedAt, k - 1), LineClaims(l.dates, l.text, path, k, checkedAt),
                 ClaimLeaks(local));
    }
  }

  lemma NothingLeaks<T>(leaks: T -> bool)
    ensures !SomeOf([], leaks)
  {
  }

  lemma {:induction false} AllClaimsLeak(sources: seq<Source>, checkedAt: Date, local: string -> bool)
    requires forall s :: s in sources ==> !local(s.path)
    ensures SomeOf(AllClaims(sources, Some(checkedAt)), ClaimLeaks(local))
            <==> exists s :: s in sources && SourceLeaks(s, checkedAt, local)
  {
    hide SourceClaims, SomeOf, ClaimLeaks, LineLeaks;
    if sources == [] {
      NothingLeaks(ClaimLeaks(local));
    } else {
      var t, s := sources[..|sources| - 1], sources[|sources| - 1];
      AllClaimsLeak(t, checkedAt, local);
      assert forall x :: x in sources <==> x in t || x == s;
      var here := if s.lines.None? then [] else SourceClaims(s.lines.value, s.path, checkedAt, |s.lines.value|);
      SomeOfJoin(AllClaims(t, Some(checkedAt)), here, ClaimLeaks(local));
      OneSourceLeaks(s, checkedAt, local);
    }
  }

  lemma OneSourceLeaks(s: Source, checkedAt: Date, local: string -> bool)
    requires !local(s.path)
    ensures SourceLeaks(s, checkedAt, local) <==>
            SomeOf(if s.lines.None? then [] else SourceClaims(s.lines.value, s.path, checkedAt, |s.lines.value|),
                   ClaimLeaks(local))
  {
    hide SourceClaims, SomeOf, ClaimLeaks, LineLeaks;
    if s.lines.None? {
      NothingLeaks(ClaimLeaks(local));
    } else {
      SourceClaimsLeak(s.lines.value, s.path, checkedAt, |s.lines.value|, local);
    }
  }

  // ---- the report's texts are the run's ----

  lemma {:induction false} LineClaimPaths(dates: seq<Date>, text: string, path: string, line: nat, checkedAt: Date)
    ensures forall c :: c in LineClaims(dates, text, path, line, checkedAt) ==> c.path == path
  {
    if dates != [] {
      LineClaimPaths(dates[..|dates| - 1], text, path, line, checkedAt);
    }
  }

  lemma {:induction false} SourceClaimPaths(lines: seq<Line>, path: string, checkedAt: Date, k: nat)
    requires k <= |lines|
    ensures forall c :: c in SourceClaims(lines, path, checkedAt, k) ==> c.path == path
  {
    hide LineClaims;
    if k > 0 {
      SourceClaimPaths(lines, path, checkedAt, k - 1);
      LineClaimPaths(lines[k - 1].dates, lines[k - 1].text, path, k, checkedAt);
    }
  }

  lemma {:induction false} AllClaimPaths(sources: seq<Source>, checkedAt: Option<Date>)
    ensures forall c :: c in AllClaims(sources, checkedAt) ==> exists s :: s in sources && s.path == c.path
  {
    hide SourceClaims;
    if sources != [] && checkedAt.Some? {
      var t, s := sources[..|sources| - 1], sources[|sources| - 1];
      AllClaimPaths(t, checkedAt);
      assert s in sources && forall x :: x in t ==> x in sources;
      if s.lines.Some? {
        SourceClaimPaths(s.lines.value, s.path, checkedAt.value, |s.lines.value|);
      }
    }
  }

  lemma QuietPaths(sources: seq<Source>, local: string -> bool)
    ensures Quiet(sources, local) <==> forall p :: p in Paths(sources) ==> !local(p)
  {
    forall s | s in sources
      ensures s.path in Paths(sources)
    {
      var i :| 0 <= i < |sources| && sources[i] == s;
      assert Paths(sources)[i] == s.path;
    }
  }

  lemma CurrentnessTexts(now: Currentness, sources: seq<Source>, checkedAt: Option<Date>, local: string -> bool)
    requires IsCurrentness(now, AllClaims(sources, checkedAt), checkedAt) && Quiet(sources, local)
    ensures CurrentnessLeaks(now, local) <==> DatesLeak(sources, checkedAt, local)
  {
    hide Iso, AllClaims, CountIf, ClaimLeaks, SourceLeaks;
    AllClaimPaths(sources, checkedAt);
    forall p | p in now.sources || p in now.blockingSources
      ensures !local(p)
    {
      assert p in Members(now.sources) || p in Members(now.blockingSources);
    }
    if checkedAt.Some? {
      AllClaimsLeak(sources, checkedAt.value, local);
    } else {
      NoClaimsUnasked(sources);
      NothingLeaks(ClaimLeaks(local));
    }
  }

  lemma FileKeysQuiet(items: seq<KeyCount>, winners: map<string, Candidate>, sources: seq<Source>,
                      local: string -> bool)
    requires Tally(items, winners, FileOf()) && Best(winners, AllCandidates(sources)) && Quiet(sources, local)
    ensures !SomeOf(items, KeyLeaks(local))
  {
    hide Best, AllCandidates, Tally;
    FilesAreWithRows(items, winners);
    WinnersInSources(winners, sources);
    QuietPaths(sources, local);
    forall k | k in items
      ensures !local(k.key)
    {
      assert k.key in FileKeys(items);
      assert k.key in Members(Paths(sources));
    }
  }

  lemma RuleKeysLeak(items: seq<KeyCount>, winners: map<string, Candidate>, local: string -> bool)
    requires Tally(items, winners, RuleOf())
    ensures SomeOf(items, KeyLeaks(local)) <==> RulesLeak(winners, local)
  {
    hide Rows;
    if SomeOf(items, KeyLeaks(local)) {
      var k :| k in items && local(k.key);
      var i :| 0 <= i < |items| && items[i] == k;
      KeyHasWinner(items, winners, i);
    }
    if id :| id in winners && local(winners[id].rule) {
      assert HasKey(items, RuleOf()(winners[id]));
      var i :| 0 <= i < |items| && items[i].key == winners[id].rule;
      assert KeyLeaks(local)(items[i]);
    }
  }

  lemma KeyHasWinner(items: seq<KeyCount>, winners: map<string, Candidate>, i: nat)
    requires Tally(items, winners, RuleOf()) && i < |items|
    ensures exists id :: id in winners && winners[id].rule == items[i].key
  {
    assert Rows(winners, ByKey(RuleOf(), items[i].key)) > 0;
    var id :| id in Matching(winners, ByKey(RuleOf(), items[i].key));
  }

  lemma RowTexts(rows: seq<Candidate>, winners: map<string, Candidate>, local: string -> bool)
    requires RowsListed(rows, winners)
    ensures SomeOf(rows, RowLeaks(local)) <==> WinnersLeak(winners, local)
  {
    hide RowLeaks, SortedBy;
    if SomeOf(rows, RowLeaks(local)) {
      var c :| c in rows && RowLeaks(local)(c);
      assert RowLeaks(local)(winners[c.id]);
    }
    if id :| id in winners && RowLeaks(local)(winners[id]) {
      assert id in Members(RowIds(rows));
      var i :| 0 <= i < |rows| && RowIds(rows)[i] == id;
      assert rows[i] in rows;
    }
  }

  lemma DetailTexts(r: Report, winners: map<string, Candidate>, sources: seq<Source>, run: Run, local: string -> bool)
    requires IsInventory(r, winners, sources, run) && Quiet(sources, local)
    requires Distinct(Paths(sources)) && forall s :: s in sources ==> s.lines.Some?
    ensures SomeOf(r.details, DetailLeaks(local)) <==> TrackingLeaks(winners, sources, run, local)
  {
    hide IsInventory, MarkersOf, Filter, SomeText, WithRows, NeedsTracking;
    InventoryLists(r, winners, sources, run);
    if SomeOf(r.details, DetailLeaks(local)) {
      var d :| d in r.details && DetailLeaks(local)(d);
      var j :| 0 <= j < |r.details| && r.details[j] == d;
      var k := SourceOfDetail(r, winners, sources, run, j);
      DetailOfSource(r, winners, sources, run, j, k);
      TrackingByMarkers(sources[k], winners);
      assert sources[k] in sources;
    }
    if SomeText(Filter(run.refs, run.isRef), local) && exists s :: s in sources && NeedsTracking(s, winners) {
      var s :| s in sources && NeedsTracking(s, winners);
      TrackingByMarkers(s, winners);
      var k :| 0 <= k < |sources| && sources[k] == s;
      var j := EntryOfSource(r, winners, sources, run, k);
      DetailOfSource(r, winners, sources, run, j, k);
      assert DetailLeaks(local)(r.details[j]);
    }
  }

  lemma InventoryLists(r: Report, winners: map<string, Candidate>, sources: seq<Source>, run: Run)
    requires IsInventory(r, winners, sources, run)
    ensures |r.details| == |r.without|
  {
  }

  lemma PathTexts(r: Report, winners: map<string, Candidate>, sources: seq<Source>, run: Run, local: string -> bool)
    requires IsInventory(r, winners, sources, run)
    ensures SomeText(r.sources, local) <==> !Quiet(sources, local)
    ensures Quiet(sources, local) ==> !SomeText(r.without, local)
  {
    hide *;
    InventoryParts(r, winners, sources, run);
    SortStrings(Paths(sources));
    QuietPaths(sources, local);
    WithoutRows(sources, winners, r.without);
    PathsFound(r.sources, r.without, sources, winners, local);
  }

  lemma PathsFound(all: seq<string>, without: seq<string>, sources: seq<Source>, winners: map<string, Candidate>,
                   local: string -> bool)
    requires forall p :: p in all <==> p in Paths(sources)
    requires Members(without) == Members(Paths(sources)) - WithRows(winners)
    requires Quiet(sources, local) <==> forall p :: p in Paths(sources) ==> !local(p)
    ensures SomeText(all, local) <==> !Quiet(sources, local)
    ensures Quiet(sources, local) ==> !SomeText(without, local)
  {
    hide Quiet, Paths, WithRows;
    forall p | p in without
      ensures p in Paths(sources)
    {
      assert p in Members(without);
    }
  }

  lemma HeaderTexts(r: Report, winners: map<string, Candidate>, sources: seq<Source>, run: Run, local: string -> bool)
    requires IsInventory(r, winners, sources, run) && forall s :: s in sources ==> s.lines.Some?
    ensures HeaderLeaks(r, local) <==> FixedLeak(winners, run, local)
    ensures !SomeOf(r.errors, ErrorLeaks(local))
  {
    ReadableIffNoErrors(sources);
    hide COMPLETE, INCOMPLETE, MATCH, INSUFFICIENT, INVENTORY_ID;
    NothingLeaks(ErrorLeaks(local));
  }

  lemma TextParts(r: Report, local: string -> bool)
    ensures TextsLeak(r, local) <==>
            || HeaderLeaks(r, local)
            || SomeText(r.sources, local) || CurrentnessLeaks(r.currentness, local) || SomeText(r.without, local)
            || SomeOf(r.details, DetailLeaks(local)) || SomeOf(r.errors, ErrorLeaks(local))
            || SomeOf(r.byFile, KeyLeaks(local)) || SomeOf(r.byRule, KeyLeaks(local))
            || (r.candidates.Some? && SomeOf(r.candidates.value, RowLeaks(local)))
  {
    hide HeaderLeaks, SomeText, SomeOf, CurrentnessLeaks, DetailLeaks, ErrorLeaks, KeyLeaks, RowLeaks;
  }

  lemma InputParts(winners: map<string, Candidate>, sources: seq<Source>, run: Run, local: string -> bool)
    ensures InputsLeak(winners, sources, run, local) <==>
            || FixedLeak(winners, run, local) || !Quiet(sources, local) || DatesLeak(sources, run.checkedAt, local)
            || TrackingLeaks(winners, sources, run, local) || RulesLeak(winners, local)
            || (run.includeRows && WinnersLeak(winners, local))
  {
    hide FixedLeak, Quiet, DatesLeak, TrackingLeaks, RulesLeak, WinnersLeak;
  }

  /** A report of readable sources with distinct paths names a local path exactly if some input it draws on does. */
  lemma ReportLeaksInputs(r: Report, winners: map<string, Candidate>, sources: seq<Source>, run: Run,
                          local: string -> bool)
    requires IsInventory(r, winners, sources, run)
    requires Distinct(Paths(sources)) && forall s :: s in sources ==> s.lines.Some?
    ensures Leaks(AsJson(r), local) <==> InputsLeak(winners, sources, run, local)
  {
    hide *;
    ReportLeaks(r, local);
    ListsInInventory(r, winners, sources, run);
    HeaderTexts(r, winners, sources, run, local);
    PathTexts(r, winners, sources, run, local);
    TextParts(r, local);
    InputParts(winners, sources, run, local);
    if Quiet(sources, local) {
      DetailTexts(r, winners, sources, run, local);
      CurrentnessTexts(r.currentness, sources, run.checkedAt, local);
      FileKeysQuiet(r.byFile, winners, sources, local);
      RuleKeysLeak(r.byRule, winners, local);
      if run.includeRows {
        RowTexts(r.candidates.value, winners, local);
      }
    }
  }
}
