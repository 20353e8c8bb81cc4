/** From a catalog and a strict row corpus to the finding specifications that are oriented. */
module CorpusOrient {
  import opened Jsons
  import opened Lists
  import opened StrictCorpus
  import opened Sorting

  datatype Spec = Spec(
    id: string, title: string, severity: string, patterns: seq<string>, decision: Option<string>,
    actionability: string, source: Option<Dict>)

  // ---- catalog_with_strict_row_corpus ----

  function Summary(v: Validation): Json {
    Obj(map["provided" := Flag(true), "validated" := Flag(v.errors == {}), "errors_total" := Num(|v.errors|),
            "row_count" := Num(v.rowCount), "unique_finding_ids" := Num(v.uniqueIds)])
  }

  function OrEmpty(catalog: Option<Dict>): Dict {
    if catalog.Some? then catalog.value else map[]
  }

  function WithCorpus(catalog: Option<Dict>, corpus: Dict, v: Validation): Dict {
    var merged := OrEmpty(catalog)["strict_row_corpus" := Summary(v)];
    if v.errors != {} then merged else
      merged["findings" := Arr(ItemsOf(Get(corpus, "findings")))]
            ["expected_findings_total" := Get(corpus, "expected_findings_total")]
            ["source_status" := Str("strict_row_corpus_complete")]
  }

  // The catalog's corpus summary says the corpus was validated.
  predicate Trusted(catalog: Option<Dict>) {
    && catalog.Some?
    && Get(catalog.value, "strict_row_corpus").Obj?
    && Get(Get(catalog.value, "strict_row_corpus").fields, "validated") == Flag(true)
  }

  // ---- catalog_specs ----

  function OrElse(v: Json, base: Option<Json>): Json {
    if v.Null? && base.Some? then base.value else v
  }

  function OrDefault(f: Dict, key: string, otherwise: Json): Json {
    if key in f then f[key] else otherwise
  }

  function AsStrings(v: Json): seq<string>
    requires Strings(v)
  {
    seq(|v.items|, i requires 0 <= i < |v.items| => v.items[i].s)
  }

  function OptionalString(s: Option<string>): Json {
    if s.None? then Null else Str(s.value)
  }

  function OptionalDict(d: Option<Dict>): Json {
    if d.None? then Null else Obj(d.value)
  }

  // The specification a catalog finding amounts to; none if the finding makes catalog_specs raise.
  function SpecOf(raw: Json, builtins: map<string, Spec>): Option<Spec> {
    if !raw.Obj? || !Named(Get(raw.fields, "finding_id")) then None else
      var f, id := raw.fields, Get(raw.fields, "finding_id").s;
      var known := id in builtins;
      var title := OrElse(Get(f, "title"), if known then Some(Str(builtins[id].title)) else None);
      var severity := OrElse(Get(f, "severity"), if known then Some(Str(builtins[id].severity)) else None);
      var patterns := OrDefault(f, "patterns", Strs(if known then builtins[id].patterns else []));
      var decision := OrElse(Get(f, "decision_id"),
                             if known then Some(OptionalString(builtins[id].decision)) else None);
      var actionability := OrDefault(f, "actionability",
                                     Str(if known then builtins[id].actionability else "actionable"));
      var source := OrDefault(f, "source", OptionalDict(if known then builtins[id].source else None));
      if !Named(title) || !IsSeverity(severity) || !Strings(patterns) || !(decision.Null? || decision.Str?)
         || !Named(actionability) || !(source.Null? || source.Obj?) then None
      else
        Some(Spec(id, title.s, severity.s, AsStrings(patterns), if decision.Null? then None else Some(decision.s),
                  actionability.s, if source.Null? then None else Some(source.fields)))
  }

  // The field is there and is not null.
  ghost predicate Given(f: Dict, key: string) {
    key in f && f[key] != Null
  }

  // What a finding says of its specification, and what it leaves to the builtin one with its identifier. A null title,
  // severity or decision counts as left out; a null source does not.
  ghost predicate Amounts(f: Dict, s: Spec, builtins: map<string, Spec>) {
    var known := s.id in builtins;
    && "finding_id" in f && f["finding_id"] == Str(s.id)
    && "" !in {s.id, s.title, s.actionability} && s.severity in {"critical", "warning", "info"}
    && (if Given(f, "title") then f["title"] == Str(s.title) else known && s.title == builtins[s.id].title)
    && (if Given(f, "severity") then f["severity"] == Str(s.severity)
        else known && s.severity == builtins[s.id].severity)
    && (if "patterns" in f then f["patterns"] == Strs(s.patterns)
        else s.patterns == if known then builtins[s.id].patterns else [])
    && (if Given(f, "decision_id") then s.decision.Some? && f["decision_id"] == Str(s.decision.value)
        else s.decision == if known then builtins[s.id].decision else None)
    && (if "actionability" in f then f["actionability"] == Str(s.actionability)
        else s.actionability == if known then builtins[s.id].actionability else "actionable")
    && (if Given(f, "source") then s.source.Some? && f["source"] == Obj(s.source.value)
        else s.source == if known && "source" !in f then builtins[s.id].source else None)
  }

  // The finding amounts to some specification.
  ghost predicate CanAmount(raw: Json, builtins: map<string, Spec>) {
    raw.Obj? && exists s :: Amounts(raw.fields, s, builtins)
  }

  lemma StringsAre(v: Json)
    requires Strings(v)
    ensures v == Strs(AsStrings(v))
  {
    assert v.items == Strs(AsStrings(v)).items;
  }

  lemma StringsBack(ss: seq<string>)
    ensures Strings(Strs(ss)) && AsStrings(Strs(ss)) == ss
  {
  }

  // A finding amounts to a specification exactly if, field by field, it gives or leaves out what the specification has.
  lemma SpecOfMeans(raw: Json, s: Spec, builtins: map<string, Spec>)
    ensures SpecOf(raw, builtins) == Some(s) <==> raw.Obj? && Amounts(raw.fields, s, builtins)
  {
    hide Strings, AsStrings, Strs;
    if raw.Obj? && "patterns" in raw.fields && Strings(raw.fields["patterns"]) {
      StringsAre(raw.fields["patterns"]);
    }
    StringsBack(s.patterns);
    if raw.Obj? && Named(Get(raw.fields, "finding_id")) && Get(raw.fields, "finding_id").s in builtins {
      StringsBack(builtins[Get(raw.fields, "finding_id").s].patterns);
    }
    StringsBack([]);
  }

  lemma AmountsToSome(raw: Json, builtins: map<string, Spec>)
    ensures SpecOf(raw, builtins).Some? <==> CanAmount(raw, builtins)
    ensures SpecOf(raw, builtins).Some? ==> raw.Obj? && Amounts(raw.fields, SpecOf(raw, builtins).value, builtins)
  {
    hide SpecOf, Amounts;
    if SpecOf(raw, builtins).Some? {
      SpecOfMeans(raw, SpecOf(raw, builtins).value, builtins);
    }
    if raw.Obj? {
      if s :| Amounts(raw.fields, s, builtins) {
        SpecOfMeans(raw, s, builtins);
      }
    }
  }

  function FindingsOf(catalog: Option<Dict>): Json {
    if catalog.None? then Arr([]) else OrDefault(catalog.value, "findings", Arr([]))
  }

  // A list of specifications by identifier; of several with the same identifier the last one stays.
  function ById(specs: seq<Spec>): map<string, Spec> {
    if specs == [] then map[] else
      var s := specs[|specs| - 1];
      ById(specs[..|specs| - 1])[s.id := s]
  }

  ghost predicate Specifies(specs: seq<Spec>, raw: seq<Json>, builtins: map<string, Spec>) {
    |specs| == |raw| && forall i :: 0 <= i < |raw| ==> raw[i].Obj? && Amounts(raw[i].fields, specs[i], builtins)
  }

  // The catalog's findings are a list, and each amounts to a specification.
  ghost predicate Specifiable(catalog: Option<Dict>, builtins: seq<Spec>) {
    var findings := FindingsOf(catalog);
    && findings.Arr?
    && forall i :: 0 <= i < |findings.items| ==> CanAmount(findings.items[i], ById(builtins))
  }

  // catalog_specs raises exactly when the findings are no list or some finding amounts to no specification.
  method CatalogSpecs(catalog: Option<Dict>, builtins: seq<Spec>) returns (specs: Option<seq<Spec>>)
    ensures specs.Some? <==> Specifiable(catalog, builtins)
    ensures specs.Some? ==> Specifies(specs.value, FindingsOf(catalog).items, ById(builtins))
  {
    hide SpecOf, Amounts, CanAmount;
    if catalog.None? {
      return Some([]);
    }
    var findings := FindingsOf(catalog);
    if !findings.Arr? {
      return None;
    }
    var known := ById(builtins);
    var built: seq<Spec> := [];
    for i := 0 to |findings.items|
      invariant |built| == i && forall j :: 0 <= j < i ==> CanAmount(findings.items[j], known)
      invariant forall j :: 0 <= j < i ==> findings.items[j].Obj? && Amounts(findings.items[j].fields, built[j], known)
    {
      var spec := SpecOf(findings.items[i], known);
      AmountsToSome(findings.items[i], known);
      if spec.None? {
        return None;
      }
      built := built + [spec.value];
    }
    specs := Some(built);
  }

  // ---- merged_specs ----

  function Ids(specs: seq<Spec>): seq<string> {
    seq(|specs|, i requires 0 <= i < |specs| => specs[i].id)
  }

  // Each identifier once, where it first appears.
  function FirstAppearances(ids: seq<string>): seq<string> {
    if ids == [] then [] else
      var before, x := FirstAppearances(ids[..|ids| - 1]), ids[|ids| - 1];
      if x in before then before else before + [x]
  }

  // s is the last of all with its identifier.
  ghost predicate Latest(s: Spec, all: seq<Spec>) {
    exists k :: 0 <= k < |all| && LastAt(k, all) && all[k] == s
  }

  ghost predicate LastAt(k: nat, all: seq<Spec>)
    requires k < |all|
  {
    forall j :: k < j < |all| ==> all[j].id != all[k].id
  }

  // Every identifier in order of first appearance, each with the last specification given for it.
  ghost predicate IsOverlay(merged: seq<Spec>, all: seq<Spec>) {
    && Ids(merged) == FirstAppearances(Ids(all))
    && forall i :: 0 <= i < |merged| ==> Latest(merged[i], all)
  }

  lemma LatestGrows(all: seq<Spec>, s: Spec)
    ensures Latest(s, all + [s])
    ensures forall x :: Latest(x, all) && x.id != s.id ==> Latest(x, all + [s])
  {
    assert LastAt(|all|, all + [s]);
    forall x | Latest(x, all) && x.id != s.id
      ensures Latest(x, all + [s])
    {
      var k :| 0 <= k < |all| && LastAt(k, all) && all[k] == x;
      assert LastAt(k, all + [s]) && (all + [s])[k] == x;
    }
  }

  lemma {:induction false} ByIdIsLatest(all: seq<Spec>)
    ensures forall id :: id in ById(all) <==> id in Ids(all)
    ensures forall id :: id in ById(all) ==> ById(all)[id].id == id && Latest(ById(all)[id], all)
  {
    if all != [] {
      hide Latest;
      var t, s := all[..|all| - 1], all[|all| - 1];
      assert all == t + [s] && Ids(all) == Ids(t) + [s.id];
      ByIdIsLatest(t);
      LatestGrows(t, s);
    }
  }

  lemma {:induction false} AppearancesAreMembers(ids: seq<string>)
    ensures forall x :: x in FirstAppearances(ids) <==> x in ids
    ensures Distinct(FirstAppearances(ids))
  {
    if ids != [] {
      var t, x := ids[..|ids| - 1], ids[|ids| - 1];
      assert ids == t + [x];
      AppearancesAreMembers(t);
    }
  }

  lemma {:induction false} DistinctAppear(ids: seq<string>)
    requires Distinct(ids)
    ensures FirstAppearances(ids) == ids
  {
    if ids != [] {
      var t, x := ids[..|ids| - 1], ids[|ids| - 1];
      assert ids == t + [x];
      DistinctAppear(t);
    }
  }

  // The identifiers before a position keep their places whatever comes after.
  lemma {:induction false} AppearancesGrow(a: seq<string>, b: seq<string>)
    ensures FirstAppearances(a) <= FirstAppearances(a + b)
  {
    if b == [] {
      assert a + b == a;
    } else {
      var t := b[..|b| - 1];
      AppearancesGrow(a, t);
      assert (a + b)[..|a + b| - 1] == a + t;
    }
  }

  // The dictionary loop: `ordered` remembers where each identifier first appeared.
  method Overlay(builtins: seq<Spec>, specs: seq<Spec>) returns (merged: seq<Spec>)
    requires Distinct(Ids(builtins))
    ensures IsOverlay(merged, builtins + specs)
  {
    hide *;
    var byId, ordered := ById(builtins), Ids(builtins);
    DistinctAppear(ordered);
    assert builtins + specs[..0] == builtins;
    for i := 0 to |specs|
      invariant byId == ById(builtins + specs[..i])
      invariant ordered == FirstAppearances(Ids(builtins + specs[..i]))
    {
      ghost var before := builtins + specs[..i];
      var s := specs[i];
      assert builtins + specs[..i + 1] == before + [s];
      AddOne(before, s);
      if s.id !in byId {
        ordered := ordered + [s.id];
      }
      byId := byId[s.id := s];
    }
    assert specs[..|specs|] == specs;
    ghost var all := builtins + specs;
    OrderedAreKeys(all);
    merged := seq(|ordered|, i requires 0 <= i < |ordered| && ordered[i] in byId => byId[ordered[i]]);
    ReadOff(all, merged);
  }

  lemma OrderedAreKeys(all: seq<Spec>)
    ensures forall id :: id in FirstAppearances(Ids(all)) <==> id in ById(all)
  {
    hide Latest;
    ByIdIsLatest(all);
    AppearancesAreMembers(Ids(all));
  }

  lemma ReadOff(all: seq<Spec>, merged: seq<Spec>)
    requires |merged| == |FirstAppearances(Ids(all))|
    requires forall i :: 0 <= i < |merged| ==>
               FirstAppearances(Ids(all))[i] in ById(all) && merged[i] == ById(all)[FirstAppearances(Ids(all))[i]]
    ensures IsOverlay(merged, all)
  {
    hide Latest, ById, FirstAppearances;
    ByIdIsLatest(all);
  }

  lemma AddOne(all: seq<Spec>, s: Spec)
    ensures ById(all + [s]) == ById(all)[s.id := s]
    ensures FirstAppearances(Ids(all + [s])) ==
            if s.id in ById(all) then FirstAppearances(Ids(all)) else FirstAppearances(Ids(all)) + [s.id]
  {
    OrderedAreKeys(all);
    assert (all + [s])[..|all|] == all;
    assert Ids(all + [s]) == Ids(all) + [s.id];
    assert (Ids(all) + [s.id])[..|all|] == Ids(all);
  }

  /** merged_specs: a validated corpus stands alone; otherwise the catalog is laid over the builtin findings. */
  method MergedSpecs(catalog: Option<Dict>, builtins: seq<Spec>) returns (specs: Option<seq<Spec>>)
    requires Distinct(Ids(builtins))
    ensures specs.Some? <==> Specifiable(catalog, builtins)
    ensures specs.Some? && Trusted(catalog) ==> Specifies(specs.value, FindingsOf(catalog).items, ById(builtins))
    ensures specs.Some? && !Trusted(catalog) ==>
              && Ids(builtins) <= Ids(specs.value)
              && exists own :: Specifies(own, FindingsOf(catalog).items, ById(builtins))
                               && IsOverlay(specs.value, builtins + own)
  {
    hide SpecOf, Trusted, Amounts;
    specs := CatalogSpecs(catalog, builtins);
    if specs.Some? && !Trusted(catalog) {
      var own := specs.value;
      var merged := Overlay(builtins, own);
      assert Specifies(own, FindingsOf(catalog).items, ById(builtins)) && IsOverlay(merged, builtins + own);
      assert Ids(builtins + own) == Ids(builtins) + Ids(own);
      DistinctAppear(Ids(builtins));
      AppearancesGrow(Ids(builtins), Ids(own));
      specs := Some(merged);
    }
  }

  // ---- audit_catalog_summary and orient_scan ----

  datatype CatalogStatus = Unbounded | Complete | OverItemized | Incomplete

  function StatusOf(catalog: Dict, itemized: nat): CatalogStatus {
    var expected := Get(catalog, "expected_findings_total");
    if !expected.Num? then Unbounded
    else if itemized == expected.n then Complete
    else if itemized > expected.n then OverItemized
    else Incomplete
  }

  // No integer is expected, or the itemised findings are as many, more, or fewer.
  lemma StatusMeans(catalog: Dict, itemized: nat)
    ensures StatusOf(catalog, itemized).Unbounded? <==> forall n :: Get(catalog, "expected_findings_total") != Num(n)
    ensures StatusOf(catalog, itemized).Complete? <==> Get(catalog, "expected_findings_total") == Num(itemized)
    ensures StatusOf(catalog, itemized).OverItemized? <==>
            exists n :: Get(catalog, "expected_findings_total") == Num(n) && n < itemized
    ensures StatusOf(catalog, itemized).Incomplete? <==>
            exists n :: Get(catalog, "expected_findings_total") == Num(n) && n > itemized
  {
    var expected := Get(catalog, "expected_findings_total");
    assert expected.Num? ==> expected == Num(expected.n);
  }

  datatype Evaluation = Present | Absent | NotEvaluated

  // What the scan holds for a pattern name: its count, and its samples.
  datatype ScanView = ScanView(count: string -> int, samples: string -> seq<Json>)

  datatype Oriented = Oriented(spec: Spec, evidence: Evaluation, count: int, samples: seq<Json>)

  datatype OrientReport = OrientReport(
    findings: seq<Oriented>, present: nat, absent: int, criticalPresent: nat, notEvaluated: nat,
    catalogStatus: Option<CatalogStatus>)

  function SumCounts(patterns: seq<string>, count: string -> int): int {
    if patterns == [] then 0 else SumCounts(patterns[..|patterns| - 1], count) + count(patterns[|patterns| - 1])
  }

  function AllSamples(patterns: seq<string>, samples: string -> seq<Json>): seq<Json> {
    if patterns == [] then [] else
      AllSamples(patterns[..|patterns| - 1], samples) + samples(patterns[|patterns| - 1])
  }

  // A list's total is the sum of its parts' totals, and one name's total is its count.
  lemma {:induction false} CountsAddUp(s: seq<string>, t: seq<string>, count: string -> int)
    ensures SumCounts(s + t, count) == SumCounts(s, count) + SumCounts(t, count)
    ensures forall p :: SumCounts([p], count) == count(p)
  {
    if t == [] {
      assert s + t == s;
    } else {
      var head := t[..|t| - 1];
      CountsAddUp(s, head, count);
      assert (s + t)[..|s + t| - 1] == s + head;
    }
  }

  // The samples are those of the names, one after the other.
  lemma {:induction false} SamplesJoin(s: seq<string>, t: seq<string>, samples: string -> seq<Json>)
    ensures AllSamples(s + t, samples) == AllSamples(s, samples) + AllSamples(t, samples)
  {
    if t == [] {
      assert s + t == s;
    } else {
      var head, p := t[..|t| - 1], t[|t| - 1];
      SamplesJoin(s, head, samples);
      assert (s + t)[..|s + t| - 1] == s + head && (s + t)[|s + t| - 1] == p;
      calc {
        AllSamples(s + t, samples);
        AllSamples(s + head, samples) + samples(p);
        AllSamples(s, samples) + (AllSamples(head, samples) + samples(p));
      }
    }
  }

  lemma OneSample(p: string, samples: string -> seq<Json>)
    ensures AllSamples([p], samples) == samples(p)
  {
    assert AllSamples([p], samples) == AllSamples([], samples) + samples(p);
  }

  lemma {:induction false} SumMeansSome(patterns: seq<string>, count: string -> int)
    requires forall p :: count(p) >= 0
    ensures SumCounts(patterns, count) >= 0
    ensures SumCounts(patterns, count) > 0 <==> exists p :: p in patterns && count(p) > 0
  {
    if patterns != [] {
      var t, q := patterns[..|patterns| - 1], patterns[|patterns| - 1];
      SumMeansSome(t, count);
      assert forall p :: p in patterns <==> p in t || p == q;
    }
  }

  // A finding for a specification: not evaluated without patterns, and otherwise present if something was counted.
  ghost predicate Evaluates(f: Oriented, s: Spec, scan: ScanView) {
    && f.spec == s
    && f.count == SumCounts(s.patterns, scan.count)
    && f.samples == Take(AllSamples(s.patterns, scan.samples), 3)
    && (f.evidence.NotEvaluated? <==> s.patterns == [])
    && (f.evidence.Present? <==> f.count > 0)
  }

  function Has(e: Evaluation): Oriented -> bool {
    (f: Oriented) => f.evidence == e
  }

  function CriticalPresent(): Oriented -> bool {
    (f: Oriented) => f.evidence.Present? && f.spec.severity == "critical"
  }

  // A report on the given specifications: one finding each, and every finding in exactly one of three counts.
  ghost predicate Reports(o: OrientReport, specs: seq<Spec>, scan: ScanView) {
    && |o.findings| == |specs|
    && (forall i :: 0 <= i < |specs| ==> Evaluates(o.findings[i], specs[i], scan))
    && Counts(o)
  }

  ghost predicate Counts(o: OrientReport) {
    && o.present == |set i | 0 <= i < |o.findings| && o.findings[i].evidence.Present?|
    && o.absent == |set i | 0 <= i < |o.findings| && o.findings[i].evidence.Absent?|
    && o.notEvaluated == |set i | 0 <= i < |o.findings| && o.findings[i].evidence.NotEvaluated?|
    && o.criticalPresent ==
       |set i | 0 <= i < |o.findings| && o.findings[i].evidence.Present? && o.findings[i].spec.severity == "critical"|
  }

  lemma {:induction false} EvidencePartitions(fs: seq<Oriented>)
    ensures CountIf(fs, Has(Present)) + CountIf(fs, Has(Absent)) + CountIf(fs, Has(NotEvaluated)) == |fs|
  {
    if fs != [] {
      EvidencePartitions(fs[..|fs| - 1]);
    }
  }

  lemma CountsHold(o: OrientReport)
    requires o.present == CountIf(o.findings, Has(Present)) && o.notEvaluated == CountIf(o.findings, Has(NotEvaluated))
    requires o.absent == |o.findings| - o.present - o.notEvaluated
    requires o.criticalPresent == CountIf(o.findings, CriticalPresent())
    ensures Counts(o)
  {
    var fs := o.findings;
    EvidencePartitions(fs);
    CountsPlaces(fs, Has(Present), set i | 0 <= i < |fs| && fs[i].evidence.Present?);
    CountsPlaces(fs, Has(Absent), set i | 0 <= i < |fs| && fs[i].evidence.Absent?);
    CountsPlaces(fs, Has(NotEvaluated), set i | 0 <= i < |fs| && fs[i].evidence.NotEvaluated?);
    CountsPlaces(fs, CriticalPresent(),
                 set i | 0 <= i < |fs| && fs[i].evidence.Present? && fs[i].spec.severity == "critical");
  }

  // The scan counts some pattern of the specification.
  ghost predicate Hit(s: Spec, count: string -> int) {
    exists p :: p in s.patterns && count(p) > 0
  }

  // With no negative counts the evidence is read off the scan, pattern by pattern.
  lemma ReportReadsScan(o: OrientReport, specs: seq<Spec>, scan: ScanView)
    requires Reports(o, specs, scan) && forall p :: scan.count(p) >= 0
    ensures forall f :: f in o.findings ==>
              f.evidence ==
              if f.spec.patterns == [] then NotEvaluated else if Hit(f.spec, scan.count) then Present else Absent
    ensures o.criticalPresent > 0 <==>
            exists f :: f in o.findings && f.spec.severity == "critical" && Hit(f.spec, scan.count)
  {
    hide Hit, SumCounts, AllSamples;
    var fs := o.findings;
    forall i | 0 <= i < |fs|
      ensures fs[i].evidence ==
              if fs[i].spec.patterns == [] then NotEvaluated
              else if Hit(fs[i].spec, scan.count) then Present else Absent
      ensures fs[i].evidence.Present? <==> Hit(fs[i].spec, scan.count)
    {
      FindingReadsScan(fs[i], specs[i], scan);
    }
    var critical := set i | 0 <= i < |fs| && fs[i].evidence.Present? && fs[i].spec.severity == "critical";
    if critical != {} {
      var i :| i in critical;
      assert fs[i] in fs;
    }
    if f :| f in fs && f.spec.severity == "critical" && Hit(f.spec, scan.count) {
      var i :| 0 <= i < |fs| && fs[i] == f;
      assert i in critical;
    }
  }

  lemma FindingReadsScan(f: Oriented, s: Spec, scan: ScanView)
    requires Evaluates(f, s, scan) && forall p :: scan.count(p) >= 0
    ensures f.evidence.NotEvaluated? <==> f.spec.patterns == []
    ensures f.evidence.Present? <==> Hit(f.spec, scan.count)
    ensures f.evidence.NotEvaluated? ==> !f.evidence.Present?
  {
    SumMeansSome(s.patterns, scan.count);
  }

  /** The report loop of orient_scan. */
  method OrientSpecs(specs: seq<Spec>, scan: ScanView, status: Option<CatalogStatus>) returns (o: OrientReport)
    ensures Reports(o, specs, scan) && o.catalogStatus == status
    ensures o.present + o.absent + o.notEvaluated == |specs|
    ensures (forall p :: scan.count(p) >= 0) ==>
              && (forall f :: f in o.findings ==>
                    f.evidence ==
                    if f.spec.patterns == [] then NotEvaluated else if Hit(f.spec, scan.count) then Present else Absent)
              && (o.criticalPresent > 0 <==>
                  exists f :: f in o.findings && f.spec.severity == "critical" && Hit(f.spec, scan.count))
  {
    hide Counts;
    var findings: seq<Oriented> := [];
    for i := 0 to |specs|
      invariant |findings| == i && forall j :: 0 <= j < i ==> Evaluates(findings[j], specs[j], scan)
    {
      var s, n := specs[i], 0;
      var samples: seq<Json> := [];
      for j := 0 to |s.patterns|
        invariant n == SumCounts(s.patterns[..j], scan.count)
        invariant samples == AllSamples(s.patterns[..j], scan.samples)
      {
        assert s.patterns[..j + 1][..j] == s.patterns[..j];
        n := n + scan.count(s.patterns[j]);
        samples := samples + scan.samples(s.patterns[j]);
      }
      assert s.patterns[..|s.patterns|] == s.patterns;
      var evidence := if n > 0 then Present else Absent;
      if s.patterns == [] {
        evidence := NotEvaluated;
      }
      findings := findings + [Oriented(s, evidence, n, Take(samples, 3))];
    }
    EvidencePartitions(findings);
    var present, idle := CountIf(findings, Has(Present)), CountIf(findings, Has(NotEvaluated));
    o := OrientReport(findings, present, |findings| - present - idle, CountIf(findings, CriticalPresent()), idle,
                      status);
    CountsHold(o);
    if forall p :: scan.count(p) >= 0 {
      ReportReadsScan(o, specs, scan);
    }
  }

  // ---- a validated corpus ----

  function RowId(row: Json): string {
    if row.Obj? && Named(Get(row.fields, "finding_id")) then Get(row.fields, "finding_id").s else ""
  }

  function RowIds(rows: seq<Json>): seq<string> {
    seq(|rows|, i requires 0 <= i < |rows| => RowId(rows[i]))
  }

  function RowsOf(corpus: Dict): seq<Json> {
    ItemsOf(Get(corpus, "findings"))
  }

  // A row without faults amounts to a specification, whatever is built in.
  lemma SoundRowSpecifies(f: Dict, builtins: map<string, Spec>)
    requires !BadFields(f) && Get(f, "source").Obj?
    ensures CanAmount(Obj(f), builtins)
  {
    if "patterns" !in f {
      var known := if Get(f, "finding_id").s in builtins then builtins[Get(f, "finding_id").s].patterns else [];
      assert Strings(Strs(known));
    }
    assert SpecOf(Obj(f), builtins).Some?;
    AmountsToSome(Obj(f), builtins);
  }

  lemma NoFault(fault: Fault, rows: seq<Json>, b: Binding, i: nat)
    requires i < |rows| && FaultyRows(fault, rows, b) == {}
    ensures !Faulty(fault, rows, i, b)
  {
    hide Faulty;
    assert i !in FaultyRows(fault, rows, b);
  }

  lemma NoError(e: CorpusError, corpus: Dict, catalog: Option<Dict>, localPath: string -> bool)
    requires Errors(corpus, catalog, true, localPath) == {}
    ensures !Broken(e, corpus, catalog, true, localPath)
  {
    hide Broken;
    assert e !in Errors(corpus, catalog, true, localPath);
  }

  lemma CleanRows(corpus: Dict, catalog: Option<Dict>, localPath: string -> bool, i: nat)
    requires Errors(corpus, catalog, true, localPath) == {} && i < |RowsOf(corpus)|
    ensures RowsOf(corpus)[i].Obj? && !BadFields(RowsOf(corpus)[i].fields) && !Repeats(RowsOf(corpus), i)
    ensures Get(RowsOf(corpus)[i].fields, "source").Obj?
  {
    hide BadFields, Repeats, FaultyRows, BindingOf, HeaderBroken, Errors;
    var rows, b := RowsOf(corpus), BindingOf(catalog, true);
    NoError(RowsInvalid, corpus, catalog, localPath);
    NoError(IdsNotUnique, corpus, catalog, localPath);
    NoError(PathsNotLogical, corpus, catalog, localPath);
    NoFault(RowFault, rows, b, i);
    NoFault(DuplicateFault, rows, b, i);
    NoFault(PathFault, rows, b, i);
  }

  lemma CleanHeader(corpus: Dict, catalog: Option<Dict>, localPath: string -> bool)
    requires Errors(corpus, catalog, true, localPath) == {}
    ensures Get(corpus, "findings").Arr? && Get(corpus, "expected_findings_total") == Num(|RowsOf(corpus)|)
  {
    hide FaultyRows, BindingOf, Errors;
    NoError(FindingsNotList, corpus, catalog, localPath);
    NoError(ExpectedNotInt, corpus, catalog, localPath);
    NoError(CountMismatch, corpus, catalog, localPath);
  }

  lemma SoundIds(corpus: Dict, catalog: Option<Dict>, localPath: string -> bool)
    requires Errors(corpus, catalog, true, localPath) == {}
    ensures Distinct(RowIds(RowsOf(corpus))) && !Raises(RowsOf(corpus))
  {
    hide Errors, SoundCorpus, Raises;
    var rows := RowsOf(corpus);
    forall i, j | 0 <= i < j < |rows|
      ensures RowId(rows[i]) != RowId(rows[j])
    {
      CleanRows(corpus, catalog, localPath, i);
      CleanRows(corpus, catalog, localPath, j);
    }
    CleanIffSound(corpus, catalog, true, localPath);
    SoundNeverRaises(corpus, catalog, true, localPath);
  }

  /** A corpus without errors never raises, is trusted, and itemises exactly the expected findings, each once. */
  lemma ValidatedCorpusOrients(corpus: Dict, catalog: Option<Dict>, localPath: string -> bool, v: Validation,
                               builtins: seq<Spec>)
    requires v.errors == Errors(corpus, catalog, true, localPath) == {}
    ensures !Raises(RowsOf(corpus)) && Distinct(RowIds(RowsOf(corpus)))
    ensures Get(corpus, "expected_findings_total") == Num(|RowsOf(corpus)|)
    ensures var merged := WithCorpus(catalog, corpus, v);
            && Trusted(Some(merged))
            && FindingsOf(Some(merged)) == Arr(RowsOf(corpus))
            && StatusOf(merged, |RowsOf(corpus)|) == Complete
            && Get(merged, "source_status") == Str("strict_row_corpus_complete")
    ensures forall i :: 0 <= i < |RowsOf(corpus)| ==>
              CanAmount(RowsOf(corpus)[i], ById(builtins))
  {
    hide Errors, CanAmount, ById, Raises;
    CleanHeader(corpus, catalog, localPath);
    SoundIds(corpus, catalog, localPath);
    forall i | 0 <= i < |RowsOf(corpus)|
      ensures CanAmount(RowsOf(corpus)[i], ById(builtins))
    {
      CleanRows(corpus, catalog, localPath, i);
      SoundRowSpecifies(RowsOf(corpus)[i].fields, ById(builtins));
    }
  }

  // What the merged catalog says of a validated corpus.
  lemma ValidatedSummary(corpus: Dict, catalog: Option<Dict>, localPath: string -> bool, v: Validation)
    requires v.errors == Errors(corpus, catalog, true, localPath) == {}
    requires v.rowCount == |RowsOf(corpus)| && v.uniqueIds == |IdsOf(RowsOf(corpus))|
    ensures var merged := WithCorpus(catalog, corpus, v);
            && Get(merged, "strict_row_corpus") ==
               Obj(map["provided" := Flag(true), "validated" := Flag(true), "errors_total" := Num(0),
                       "row_count" := Num(|RowsOf(corpus)|), "unique_finding_ids" := Num(|RowsOf(corpus)|)])
            && Get(merged, "source_status") == Str("strict_row_corpus_complete")
            && Get(merged, "findings") == Arr(RowsOf(corpus))
            && Get(merged, "expected_findings_total") == Num(|RowsOf(corpus)|)
            && forall key :: key !in {"strict_row_corpus", "source_status", "findings", "expected_findings_total"} ==>
                 Get(merged, key) == Get(OrEmpty(catalog), key)
  {
    hide Errors, IdsOf;
    CleanHeader(corpus, catalog, localPath);
    OneIdEach(corpus, catalog, localPath);
  }

  lemma OneIdEach(corpus: Dict, catalog: Option<Dict>, localPath: string -> bool)
    requires Errors(corpus, catalog, true, localPath) == {}
    ensures |IdsOf(RowsOf(corpus))| == |RowsOf(corpus)|
  {
    hide Errors, BadFields, Repeats;
    var rows := RowsOf(corpus);
    SoundIds(corpus, catalog, localPath);
    forall i | 0 <= i < |rows|
      ensures rows[i].Obj? && Named(Get(rows[i].fields, "finding_id")) && RowIds(rows)[i] in IdsOf(rows)
    {
      CleanRows(corpus, catalog, localPath, i);
      NamedRow(rows[i].fields);
    }
    assert forall id :: id in IdsOf(rows) ==> exists i :: 0 <= i < |rows| && RowIds(rows)[i] == id;
    assert Members(RowIds(rows)) == IdsOf(rows);
    DistinctCount(RowIds(rows));
  }

  lemma NamedRow(f: Dict)
    requires !BadFields(f)
    ensures Named(Get(f, "finding_id"))
  {
  }

  /** A corpus with errors is never trusted, whatever the catalog said of itself, and leaves the catalog's findings. */
  lemma RejectedCorpusIsNotTrusted(corpus: Dict, catalog: Option<Dict>, v: Validation)
    requires v.errors != {}
    ensures !Trusted(Some(WithCorpus(catalog, corpus, v)))
    ensures FindingsOf(Some(WithCorpus(catalog, corpus, v))) == FindingsOf(catalog)
  {
  }

  lemma RejectedKeepsStatus(corpus: Dict, catalog: Option<Dict>, v: Validation, n: nat)
    requires v.errors != {}
    ensures StatusOf(WithCorpus(catalog, corpus, v), n) == StatusOf(OrEmpty(catalog), n)
  {
    assert "strict_row_corpus" != "expected_findings_total";
  }

  lemma SameFindings(a: Option<Dict>, b: Option<Dict>, builtins: seq<Spec>)
    requires FindingsOf(a) == FindingsOf(b)
    ensures Specifiable(a, builtins) <==> Specifiable(b, builtins)
  {
    hide CanAmount, FindingsOf;
  }

  function ReportIds(o: OrientReport): seq<string> {
    seq(|o.findings|, i requires 0 <= i < |o.findings| => o.findings[i].spec.id)
  }

  lemma ReportsTheSpecs(o: OrientReport, specs: seq<Spec>, scan: ScanView)
    requires Reports(o, specs, scan)
    ensures ReportIds(o) == Ids(specs)
  {
  }

  lemma SpecIds(specs: seq<Spec>, rows: seq<Json>, known: map<string, Spec>)
    requires Specifies(specs, rows, known)
    ensures Ids(specs) == RowIds(rows)
  {
    forall i | 0 <= i < |rows|
      ensures Ids(specs)[i] == RowIds(rows)[i]
    {
      AmountsById(rows[i], specs[i], known);
    }
  }

  lemma AmountsById(row: Json, s: Spec, known: map<string, Spec>)
    requires row.Obj? && Amounts(row.fields, s, known)
    ensures RowId(row) == s.id
  {
  }

  /** orient_scan with a strict row corpus; nothing is returned if some step raises. */
  method OrientWithCorpus(catalog: Option<Dict>, corpus: Dict, builtins: seq<Spec>, scan: ScanView,
                          localPath: string -> bool)
    returns (o: Option<OrientReport>)
    requires Distinct(Ids(builtins))
    ensures o.None? <==>
            || Raises(RowsOf(corpus))
            || (!SoundCorpus(corpus, catalog, true, localPath) && !Specifiable(catalog, builtins))
    ensures o.Some? && (forall p :: scan.count(p) >= 0) ==>
              && (forall f :: f in o.value.findings ==>
                    f.evidence ==
                    if f.spec.patterns == [] then NotEvaluated else if Hit(f.spec, scan.count) then Present else Absent)
              && (o.value.criticalPresent > 0 <==>
                  exists f :: f in o.value.findings && f.spec.severity == "critical" && Hit(f.spec, scan.count))
    ensures SoundCorpus(corpus, catalog, true, localPath) ==>
              && o.Some?
              && o.value.catalogStatus == Some(Complete)
              && Get(corpus, "expected_findings_total") == Num(|o.value.findings|)
              && ReportIds(o.value) == RowIds(RowsOf(corpus)) && Distinct(ReportIds(o.value))
              && exists specs :: Reports(o.value, specs, scan) && Specifies(specs, RowsOf(corpus), ById(builtins))
    ensures !SoundCorpus(corpus, catalog, true, localPath) && o.Some? ==>
              && Ids(builtins) <= ReportIds(o.value)
              && FindingsOf(catalog).Arr?
              && o.value.catalogStatus == Some(StatusOf(OrEmpty(catalog), |FindingsOf(catalog).items|))
              && exists merged, own :: Reports(o.value, merged, scan) && IsOverlay(merged, builtins + own)
                                       && Specifies(own, FindingsOf(catalog).items, ById(builtins))
  {
    hide Errors, SoundCorpus, Raises, WithCorpus, IsOverlay, Reports, SpecOf, Trusted, RowIds, StatusOf, Ids,
         ReportIds, Specifies, FindingsOf;
    CleanIffSound(corpus, catalog, true, localPath);
    var v := ValidateStrictRowCorpus(corpus, catalog, true, localPath);
    if v.None? {
      CleanNeverRaises(corpus, catalog, localPath);
      return None;
    }
    var merged := WithCorpus(catalog, corpus, v.value);
    var itemized := CatalogSpecs(Some(merged), builtins);
    var specs := MergedSpecs(Some(merged), builtins);
    if v.value.errors == {} {
      ValidatedCorpusOrients(corpus, catalog, localPath, v.value, builtins);
      SpecIds(specs.value, RowsOf(corpus), ById(builtins));
      SpecIds(itemized.value, RowsOf(corpus), ById(builtins));
      SizesAgree(specs.value, itemized.value, RowsOf(corpus));
    } else {
      RejectedCorpusIsNotTrusted(corpus, catalog, v.value);
      SameFindings(Some(merged), catalog, builtins);
      if itemized.Some? {
        RejectedKeepsStatus(corpus, catalog, v.value, |itemized.value|);
        SpecifiesLength(itemized.value, FindingsOf(catalog).items, ById(builtins));
      }
    }
    if specs.None? || itemized.None? {
      return None;
    }
    var report := OrientSpecs(specs.value, scan, Some(StatusOf(merged, |itemized.value|)));
    ReportsTheSpecs(report, specs.value, scan);
    ReportSize(report);
    o := Some(report);
  }

  lemma SpecifiesLength(specs: seq<Spec>, raw: seq<Json>, builtins: map<string, Spec>)
    requires Specifies(specs, raw, builtins)
    ensures |specs| == |raw|
  {
  }

  lemma SizesAgree(specs: seq<Spec>, itemized: seq<Spec>, rows: seq<Json>)
    requires Ids(specs) == Ids(itemized) == RowIds(rows)
    ensures |specs| == |itemized| == |rows| == |RowIds(rows)|
  {
    assert |Ids(specs)| == |specs| && |Ids(itemized)| == |itemized|;
  }

  lemma ReportSize(o: OrientReport)
    ensures |ReportIds(o)| == |o.findings|
  {
  }

  lemma CleanNeverRaises(corpus: Dict, catalog: Option<Dict>, localPath: string -> bool)
    ensures Errors(corpus, catalog, true, localPath) == {} ==> !Raises(ItemsOf(Get(corpus, "findings")))
  {
    hide Errors, Raises;
    if Errors(corpus, catalog, true, localPath) == {} {
      SoundIds(corpus, catalog, localPath);
    }
  }
}
