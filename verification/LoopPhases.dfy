/** Observe, Orient, Decide, Verify and Status as the scripts run them, each against a description. */
module LoopPhases {
  import opened Lists
  import opened LoopModel
  import opened Rounding
  import opened Sorting

  // Whether a pattern's regular expression is found in a line.
  type Matcher = (Pattern, string) -> bool

  // ---- Observe ----

  ghost function Hits(m: Matcher, p: Pattern): LogLine -> bool {
    (l: LogLine) => m(p, l.text)
  }

  ghost function AnyHit(m: Matcher): LogLine -> bool {
    (l: LogLine) => exists p :: m(p, l.text)
  }

  ghost function PatternReportOf(log: seq<LogLine>, m: Matcher, p: Pattern, maxSamples: nat): PatternReport {
    PatternReport(CountIf(log, Hits(m, p)), Take(Filter(log, Hits(m, p)), maxSamples))
  }

  ghost predicate IsScan(scan: Scan, log: seq<LogLine>, m: Matcher, maxSamples: nat) {
    && scan.files == FilesOf(log)
    && scan.totalLines == |log|
    && scan.matchedLines == CountIf(log, AnyHit(m))
    && (forall p: Pattern :: p in scan.patterns && scan.patterns[p] == PatternReportOf(log, m, p, maxSamples))
  }

  // One line against every pattern of ps.
  method ScanLine(ps: seq<Pattern>, reports: map<Pattern, PatternReport>, line: LogLine, m: Matcher, maxSamples: nat)
    returns (updated: map<Pattern, PatternReport>, matched: bool)
    requires forall p: Pattern :: p in reports
    requires forall i, j :: 0 <= i < j < |ps| ==> ps[i] != ps[j]
    ensures matched <==> exists p :: p in ps && m(p, line.text)
    ensures forall p: Pattern :: p in updated && updated[p] ==
              if p in ps && m(p, line.text) then Bumped(reports[p], line, maxSamples) else reports[p]
  {
    updated, matched := reports, false;
    for k := 0 to |ps|
      invariant forall p: Pattern :: p in updated
      invariant matched <==> exists p :: p in ps[..k] && m(p, line.text)
      invariant forall p: Pattern :: updated[p] ==
                  if p in ps[..k] && m(p, line.text) then Bumped(reports[p], line, maxSamples) else reports[p]
    {
      var p := ps[k];
      assert p !in ps[..k] && ps[..k + 1] == ps[..k] + [p];
      if m(p, line.text) {
        var r := updated[p];
        r := r.(count := r.count + 1);
        matched := true;
        if |r.samples| < maxSamples {
          r := r.(samples := r.samples + [line]);
        }
        updated := updated[p := r];
      }
    }
    assert ps[..|ps|] == ps;
  }

  // A scan carried over one more line.
  lemma ScanStep(log: seq<LogLine>, line: LogLine, m: Matcher, maxSamples: nat, s: Scan,
                 reports: map<Pattern, PatternReport>, matched: bool)
    requires IsScan(s, log, m, maxSamples) && (matched <==> exists p :: m(p, line.text))
    requires forall p: Pattern :: p in reports && reports[p] ==
               if m(p, line.text) then Bumped(s.patterns[p], line, maxSamples) else s.patterns[p]
    ensures IsScan(
              Scan(if line.path in s.files then s.files else s.files + [line.path], s.totalLines + 1,
                   s.matchedLines + (if matched then 1 else 0), reports),
              log + [line], m, maxSamples)
  {
    hide PatternReportOf, Bumped;
    assert (log + [line])[..|log|] == log;
    forall p: Pattern
      ensures reports[p] == PatternReportOf(log + [line], m, p, maxSamples)
    {
      ReportStep(log, line, m, p, maxSamples);
    }
  }

  lemma ReportStep(log: seq<LogLine>, line: LogLine, m: Matcher, p: Pattern, maxSamples: nat)
    ensures PatternReportOf(log + [line], m, p, maxSamples) ==
            var r := PatternReportOf(log, m, p, maxSamples);
            if m(p, line.text) then Bumped(r, line, maxSamples) else r
  {
    assert (log + [line])[..|log|] == log;
    TakeGrows(Filter(log, Hits(m, p)), line, maxSamples);
  }

  lemma ScanSays(scan: Scan, log: seq<LogLine>, m: Matcher, maxSamples: nat)
    requires IsScan(scan, log, m, maxSamples)
    ensures forall p: Pattern :: p in scan.patterns
                                 && scan.patterns[p].count == |set i | 0 <= i < |log| && m(p, log[i].text)|
    ensures scan.matchedLines == |set i | 0 <= i < |log| && (exists p :: m(p, log[i].text))|
  {
    hide CountIf, Filter, Take;
    CountsPlaces(log, AnyHit(m), set i | 0 <= i < |log| && exists p :: m(p, log[i].text));
    forall p: Pattern
      ensures p in scan.patterns && scan.patterns[p].count == |set i | 0 <= i < |log| && m(p, log[i].text)|
    {
      CountsPlaces(log, Hits(m, p), set i | 0 <= i < |log| && m(p, log[i].text));
    }
  }

  method ScanLogs(log: seq<LogLine>, m: Matcher, maxSamples: nat) returns (scan: Scan)
    ensures IsScan(scan, log, m, maxSamples)
    ensures forall p: Pattern :: p in scan.patterns
                                 && scan.patterns[p].count == |set i | 0 <= i < |log| && m(p, log[i].text)|
    ensures scan.matchedLines == |set i | 0 <= i < |log| && (exists p :: m(p, log[i].text))|
  {
    AllPatterns();
    var reports := map p | p in PATTERNS :: PatternReport(0, []);
    var files: seq<string>, total: nat, matchedLines: nat := [], 0, 0;
    assert forall p: Pattern :: PATTERNS[..15] == PATTERNS && p in reports;
    for i := 0 to |log|
      invariant IsScan(Scan(files, total, matchedLines, reports), log[..i], m, maxSamples)
    {
      hide IsScan;
      var line := log[i];
      ghost var before := Scan(files, total, matchedLines, reports);
      ScanCoversAll(before, log[..i], m, maxSamples);
      assert log[..i + 1] == log[..i] + [line];
      total := total + 1;
      if line.path !in files {
        files := files + [line.path];
      }
      var matched;
      reports, matched := ScanLine(PATTERNS, reports, line, m, maxSamples);
      if matched {
        matchedLines := matchedLines + 1;
      }
      ScanStep(log[..i], line, m, maxSamples, before, reports, matched);
    }
    assert log[..|log|] == log;
    scan := Scan(files, total, matchedLines, reports);
    ScanSays(scan, log, m, maxSamples);
  }

  lemma ScanCoversAll(scan: Scan, log: seq<LogLine>, m: Matcher, maxSamples: nat)
    requires IsScan(scan, log, m, maxSamples)
    ensures forall p: Pattern :: p in scan.patterns
  {
  }

  // ---- Orient ----

  // pattern_count: an absent pattern counts as zero.
  function PatternCount(scan: Scan, p: Pattern): nat {
    if p in scan.patterns then scan.patterns[p].count else 0
  }

  function PatternSamples(scan: Scan, p: Pattern): seq<LogLine> {
    if p in scan.patterns then scan.patterns[p].samples else []
  }

  function SumCounts(scan: Scan, ps: seq<Pattern>): nat {
    if ps == [] then 0 else SumCounts(scan, ps[..|ps| - 1]) + PatternCount(scan, ps[|ps| - 1])
  }

  function JoinSamples(scan: Scan, ps: seq<Pattern>): seq<LogLine> {
    if ps == [] then [] else JoinSamples(scan, ps[..|ps| - 1]) + PatternSamples(scan, ps[|ps| - 1])
  }

  function FindingOf(scan: Scan, f: Finding): FindingReport {
    var count := SumCounts(scan, FindingPatterns(f));
    FindingReport(f, if count > 0 then EvidencePresent else EvidenceAbsent, count,
                  Take(JoinSamples(scan, FindingPatterns(f)), 3))
  }

  function FindingsUpTo(scan: Scan, k: nat): seq<FindingReport>
    requires k <= |FINDINGS|
  {
    if k == 0 then [] else FindingsUpTo(scan, k - 1) + [FindingOf(scan, FINDINGS[k - 1])]
  }

  function IsPresent(): FindingReport -> bool {
    (r: FindingReport) => r.evidence.EvidencePresent?
  }

  function IsCriticalPresent(): FindingReport -> bool {
    (r: FindingReport) => r.evidence.EvidencePresent? && FindingSeverity(r.finding).Critical?
  }

  ghost predicate IsOrient(o: Orient, scan: Scan) {
    && o.findings == FindingsUpTo(scan, |FINDINGS|)
    && o.evidencePresent == CountIf(o.findings, IsPresent())
    && o.evidencePresent + o.evidenceAbsent == |o.findings|
    && o.criticalPresent == CountIf(o.findings, IsCriticalPresent())
  }

  // One finding: its count, and its samples pattern by pattern.
  method OrientFinding(scan: Scan, f: Finding) returns (r: FindingReport)
    ensures r == FindingOf(scan, f)
  {
    hide FindingPatterns, PatternSamples, SumCounts, Take;
    var ps := FindingPatterns(f);
    var count, samples := SumCounts(scan, ps), [];
    for j := 0 to |ps|
      invariant samples == JoinSamples(scan, ps[..j])
    {
      assert ps[..j + 1][..j] == ps[..j];
      samples := samples + PatternSamples(scan, ps[j]);
    }
    assert ps[..|ps|] == ps;
    r := FindingReport(f, if count > 0 then EvidencePresent else EvidenceAbsent, count, Take(samples, 3));
  }

  lemma {:induction false} CountsAddUp(scan: Scan, s: seq<Pattern>, t: seq<Pattern>)
    ensures SumCounts(scan, s + t) == SumCounts(scan, s) + SumCounts(scan, t)
    ensures forall p :: SumCounts(scan, [p]) == if p in scan.patterns then scan.patterns[p].count else 0
  {
    if t == [] {
      assert s + t == s;
    } else {
      CountsAddUp(scan, s, t[..|t| - 1]);
      assert (s + t)[..|s + t| - 1] == s + t[..|t| - 1];
    }
  }

  lemma {:induction false} SamplesJoin(scan: Scan, s: seq<Pattern>, t: seq<Pattern>)
    ensures JoinSamples(scan, s + t) == JoinSamples(scan, s) + JoinSamples(scan, t)
  {
    hide PatternSamples;
    if t == [] {
      assert s + t == s;
    } else {
      var head, q := t[..|t| - 1], t[|t| - 1];
      SamplesJoin(scan, s, head);
      assert (s + t)[..|s + t| - 1] == s + head && (s + t)[|s + t| - 1] == q;
      calc {
        JoinSamples(scan, s + t);
        JoinSamples(scan, s + head) + PatternSamples(scan, q);
        JoinSamples(scan, s) + (JoinSamples(scan, head) + PatternSamples(scan, q));
      }
    }
  }

  lemma OneSample(scan: Scan, p: Pattern)
    ensures JoinSamples(scan, [p]) == if p in scan.patterns then scan.patterns[p].samples else []
  {
    assert JoinSamples(scan, [p]) == JoinSamples(scan, []) + PatternSamples(scan, p);
  }

  lemma {:induction false} FindingsInOrder(scan: Scan, k: nat)
    requires k <= |FINDINGS|
    ensures |FindingsUpTo(scan, k)| == k
    ensures forall i :: 0 <= i < k ==> FindingsUpTo(scan, k)[i] == FindingOf(scan, FINDINGS[i])
  {
    hide FindingOf;
    if k > 0 {
      FindingsInOrder(scan, k - 1);
    }
  }

  lemma OrientSays(o: Orient, scan: Scan)
    requires IsOrient(o, scan)
    ensures |o.findings| == |FINDINGS|
    ensures forall i :: 0 <= i < |FINDINGS| ==>
              var r := o.findings[i];
              && r.finding == FINDINGS[i] && r.count == SumCounts(scan, FindingPatterns(FINDINGS[i]))
              && (r.evidence.EvidencePresent? <==> r.count > 0)
              && r.samples == Take(JoinSamples(scan, FindingPatterns(FINDINGS[i])), 3)
    ensures o.evidencePresent == |set i | 0 <= i < |o.findings| && o.findings[i].evidence.EvidencePresent?|
    ensures o.criticalPresent ==
            |set i | 0 <= i < |o.findings| && o.findings[i].evidence.EvidencePresent?
                     && FindingSeverity(o.findings[i].finding).Critical?|
  {
    hide FINDINGS, FindingPatterns, SumCounts, JoinSamples, FindingSeverity;
    FindingsInOrder(scan, |FINDINGS|);
    var rs := o.findings;
    CountsPlaces(rs, IsPresent(), set i | 0 <= i < |rs| && rs[i].evidence.EvidencePresent?);
    CountsPlaces(rs, IsCriticalPresent(),
                 set i | 0 <= i < |rs| && rs[i].evidence.EvidencePresent?
                         && FindingSeverity(rs[i].finding).Critical?);
  }

  /** The report loop of orient_scan, without a catalog. */
  method OrientScan(scan: Scan) returns (o: Orient)
    ensures IsOrient(o, scan)
    ensures |o.findings| == |FINDINGS| == o.evidencePresent + o.evidenceAbsent
    ensures forall i :: 0 <= i < |FINDINGS| ==>
              var r := o.findings[i];
              && r.finding == FINDINGS[i] && r.count == SumCounts(scan, FindingPatterns(FINDINGS[i]))
              && (r.evidence.EvidencePresent? <==> r.count > 0)
              && r.samples == Take(JoinSamples(scan, FindingPatterns(FINDINGS[i])), 3)
    ensures o.evidencePresent == |set i | 0 <= i < |o.findings| && o.findings[i].evidence.EvidencePresent?|
    ensures o.criticalPresent ==
            |set i | 0 <= i < |o.findings| && o.findings[i].evidence.EvidencePresent?
                     && FindingSeverity(o.findings[i].finding).Critical?|
  {
    hide FindingOf, CountIf, FindingPatterns, FindingSeverity;
    var findings: seq<FindingReport> := [];
    for k := 0 to |FINDINGS|
      invariant findings == FindingsUpTo(scan, k)
    {
      var report := OrientFinding(scan, FINDINGS[k]);
      findings := findings + [report];
    }
    CountIfAll(findings, IsPresent());
    var present := CountIf(findings, IsPresent());
    o := Orient(present, |findings| - present, CountIf(findings, IsCriticalPresent()), findings);
    OrientSays(o, scan);
  }

  // ---- Decide ----

  // Which decisions have been linked to action artifacts; None when no act map was given.
  type ActMap = Option<map<Decision, seq<string>>>

  function ActStatusFor(d: Decision, act: ActMap): ActStatus {
    match act
    case None => ActUnmapped
    case Some(m) => if d in m && m[d] != [] then ActLinked else ActMissing
  }

  // present_finding_ids: the loop over the oriented findings.
  method PresentFindings(findings: seq<FindingReport>) returns (present: set<Finding>)
    ensures forall f :: f in present <==> exists r :: r in findings && r.evidence.EvidencePresent? && r.finding == f
  {
    present := {};
    for k := 0 to |findings|
      invariant forall f :: f in present <==>
                  exists r :: r in findings[..k] && r.evidence.EvidencePresent? && r.finding == f
    {
      assert findings[..k + 1] == findings[..k] + [findings[k]];
      if findings[k].evidence.EvidencePresent? {
        present := present + {findings[k].finding};
      }
    }
    assert findings[..|findings|] == findings;
  }

  function Matched(d: Decision, present: set<Finding>): seq<Finding> {
    Filter(DecisionFindings(d), (f: Finding) => f in present)
  }

  function ActArtifacts(d: Decision, act: ActMap): seq<string> {
    if act.Some? && d in act.value then act.value[d] else []
  }

  function DecisionReportOf(d: Decision, present: set<Finding>, act: ActMap): DecisionReport {
    DecisionReport(d, PriorityRank(d), Matched(d, present), ActionText(d), Owner(d), EstimatedHours(d), Score(d),
                   ActStatusFor(d, act), ActArtifacts(d, act))
  }

  // The decisions among ds that some present finding calls for.
  function Due(ds: seq<Decision>, present: set<Finding>, act: ActMap): seq<DecisionReport> {
    if ds == [] then [] else
      var d := ds[|ds| - 1];
      Due(ds[..|ds| - 1], present, act)
      + if Matched(d, present) == [] then [] else [DecisionReportOf(d, present, act)]
  }

  function ByQueue(): (DecisionReport, DecisionReport) -> bool {
    (a: DecisionReport, b: DecisionReport) => Earlier(a.decision, b.decision)
  }

  function ReportIsP0(): DecisionReport -> bool { (r: DecisionReport) => IsP0(r.decision) }

  function ReportIsLinked(): DecisionReport -> bool { (r: DecisionReport) => r.act.ActLinked? }

  function ReportIsMissing(): DecisionReport -> bool { (r: DecisionReport) => r.act.ActMissing? }

  ghost predicate IsDecide(d: Decide, present: set<Finding>, act: ActMap) {
    && d.evidencePresent == |present|
    && d.decisions == Sort(ByQueue(), Due(DECISIONS, present, act)) && d.total == |d.decisions|
    && d.p0Count == CountIf(d.decisions, ReportIsP0())
    && d.linkedCount == CountIf(d.decisions, ReportIsLinked())
    && d.missingCount == CountIf(d.decisions, ReportIsMissing())
  }

  ghost function PresentIn(o: Orient): set<Finding> {
    set r | r in o.findings && r.evidence.EvidencePresent? :: r.finding
  }

  lemma DueStep(ds: seq<Decision>, k: nat, present: set<Finding>, act: ActMap)
    requires k < |ds|
    ensures Due(ds[..k + 1], present, act) ==
            Due(ds[..k], present, act)
            + if Matched(ds[k], present) == [] then [] else [DecisionReportOf(ds[k], present, act)]
  {
    hide Matched, DecisionReportOf;
    assert ds[..k + 1][..k] == ds[..k];
  }

  // The loop over the decisions.
  method CollectDue(ds: seq<Decision>, present: set<Finding>, act: ActMap) returns (decisions: seq<DecisionReport>)
    ensures decisions == Due(ds, present, act)
  {
    decisions := [];
    for k := 0 to |ds|
      invariant decisions == Due(ds[..k], present, act)
    {
      hide Due, Matched, Score, ActionText, Owner, EstimatedHours, PriorityRank, ActStatusFor, ActArtifacts;
      DueStep(ds, k, present, act);
      var spec := ds[k];
      var matched := Matched(spec, present);
      if matched != [] {
        decisions := decisions
                     + [DecisionReport(spec, PriorityRank(spec), matched, ActionText(spec), Owner(spec),
                                       EstimatedHours(spec), Score(spec), ActStatusFor(spec, act),
                                       ActArtifacts(spec, act))];
      }
    }
    assert ds[..|ds|] == ds;
  }

  // What the act map says of a decision.
  lemma ActMeans(r: DecisionReport, present: set<Finding>, act: ActMap)
    requires r == DecisionReportOf(r.decision, present, act)
    ensures r.act.ActUnmapped? <==> act.None?
    ensures r.act.ActLinked? <==> act.Some? && r.decision in act.value && act.value[r.decision] != []
    ensures r.artifacts == if r.act.ActLinked? then act.value[r.decision] else []
    ensures r.rank == PriorityRank(r.decision) && r.score == Score(r.decision) && r.owner == Owner(r.decision)
    ensures r.action == ActionText(r.decision) && r.hours == EstimatedHours(r.decision)
    ensures r.matched == Matched(r.decision, present)
  {
    hide Score, PriorityRank, Owner, ActionText, EstimatedHours, Matched;
  }

  lemma MatchedMeans(d: Decision, present: set<Finding>)
    ensures forall f :: f in Matched(d, present) <==> f in DecisionFindings(d) && f in present
  {
    FilterMembers(DecisionFindings(d), (f: Finding) => f in present);
  }

  lemma {:induction false} DueMembers(ds: seq<Decision>, present: set<Finding>, act: ActMap)
    ensures forall r :: r in Due(ds, present, act) <==>
              r.decision in ds && Matched(r.decision, present) != [] && r == DecisionReportOf(r.decision, present, act)
  {
    hide Matched, ActStatusFor, ActArtifacts, Score, ActionText, Owner, EstimatedHours, PriorityRank;
    if ds != [] {
      DueMembers(ds[..|ds| - 1], present, act);
      assert ds == ds[..|ds| - 1] + [ds[|ds| - 1]];
    }
  }

  lemma DecisionsAre(d: Decide, present: set<Finding>, act: ActMap)
    requires IsDecide(d, present, act)
    ensures forall r :: r in d.decisions <==>
              Matched(r.decision, present) != [] && r == DecisionReportOf(r.decision, present, act)
  {
    DueMembers(DECISIONS, present, act);
    AllDecisions();
    hide Matched, DecisionReportOf, Due, Sort, DECISIONS, Earlier;
    EarlierOrders();
    SortSorts(ByQueue(), Due(DECISIONS, present, act));
    SameMembers(d.decisions, Due(DECISIONS, present, act));
  }

  ghost predicate CalledFor(d: Decision, present: set<Finding>) {
    exists f :: f in DecisionFindings(d) && f in present
  }

  lemma MatchedIffCalledFor(d: Decision, present: set<Finding>)
    ensures Matched(d, present) != [] <==> CalledFor(d, present)
  {
    hide DecisionFindings;
    MatchedMeans(d, present);
    var s := Matched(d, present);
    assert s != [] ==> s[0] in s;
  }

  // Every decision a finding calls for, and no other, has its report.
  lemma QueuedIffCalledFor(d: Decide, present: set<Finding>, act: ActMap)
    requires IsDecide(d, present, act)
    ensures forall e :: CalledFor(e, present) <==> exists r :: r in d.decisions && r.decision == e
  {
    hide Matched, CalledFor, ActStatusFor, ActArtifacts, Score, PriorityRank, Owner, ActionText, EstimatedHours,
         IsDecide;
    DecisionsAre(d, present, act);
    forall e
      ensures CalledFor(e, present) <==> exists r :: r in d.decisions && r.decision == e
    {
      MatchedIffCalledFor(e, present);
      if CalledFor(e, present) {
        assert DecisionReportOf(e, present, act) in d.decisions;
      }
    }
  }

  lemma QueueDescends()
    ensures forall i, j :: 0 <= i < j < |QUEUE| ==>
              || PriorityRank(QUEUE[i]) < PriorityRank(QUEUE[j])
              || (PriorityRank(QUEUE[i]) == PriorityRank(QUEUE[j]) && Score(QUEUE[i]) > Score(QUEUE[j]))
  {
    hide Score, WeightsOf;
    Scores();
  }

  lemma {:induction false} DueDescends(ds: seq<Decision>, present: set<Finding>, act: ActMap)
    requires forall i, j :: 0 <= i < j < |ds| ==>
               || PriorityRank(ds[i]) < PriorityRank(ds[j])
               || (PriorityRank(ds[i]) == PriorityRank(ds[j]) && Score(ds[i]) > Score(ds[j]))
    ensures Descends(Due(ds, present, act))
  {
    hide Matched, Score, PriorityRank, ActStatusFor, ActArtifacts, Owner, ActionText, EstimatedHours;
    if ds != [] {
      DueDescends(ds[..|ds| - 1], present, act);
      DueMembers(ds[..|ds| - 1], present, act);
    }
  }

  // By rank, and within a rank by falling score.
  ghost predicate Descends(rs: seq<DecisionReport>) {
    forall i, j :: 0 <= i < j < |rs| ==>
      rs[i].rank < rs[j].rank || (rs[i].rank == rs[j].rank && rs[i].score > rs[j].score)
  }

  lemma DecideCounts(d: Decide)
    requires d.p0Count == CountIf(d.decisions, ReportIsP0()) && d.linkedCount == CountIf(d.decisions, ReportIsLinked())
    requires d.missingCount == CountIf(d.decisions, ReportIsMissing())
    requires forall r :: r in d.decisions ==> r.rank == PriorityRank(r.decision)
    ensures d.p0Count == |set i | 0 <= i < |d.decisions| && d.decisions[i].rank == 0|
    ensures d.linkedCount == |set i | 0 <= i < |d.decisions| && d.decisions[i].act.ActLinked?|
    ensures d.missingCount == |set i | 0 <= i < |d.decisions| && d.decisions[i].act.ActMissing?|
  {
    hide PriorityRank;
    var rs := d.decisions;
    CountsPlaces(rs, ReportIsP0(), set i | 0 <= i < |rs| && rs[i].rank == 0);
    CountsPlaces(rs, ReportIsLinked(), set i | 0 <= i < |rs| && rs[i].act.ActLinked?);
    CountsPlaces(rs, ReportIsMissing(), set i | 0 <= i < |rs| && rs[i].act.ActMissing?);
  }

  lemma DecideSays(d: Decide, present: set<Finding>, act: ActMap)
    requires IsDecide(d, present, act)
    ensures forall r :: r in d.decisions ==>
              && (r.act.ActUnmapped? <==> act.None?)
              && (r.act.ActLinked? <==> act.Some? && r.decision in act.value && act.value[r.decision] != [])
              && r.artifacts == (if r.act.ActLinked? then act.value[r.decision] else [])
              && r.rank == PriorityRank(r.decision) && r.score == Score(r.decision) && r.owner == Owner(r.decision)
              && r.action == ActionText(r.decision) && r.hours == EstimatedHours(r.decision)
              && forall f :: f in r.matched <==> f in DecisionFindings(r.decision) && f in present
  {
    hide Score, PriorityRank, Owner, ActionText, EstimatedHours, Matched, DecisionFindings, DecisionReportOf, IsDecide;
    DecisionsAre(d, present, act);
    forall r | r in d.decisions
      ensures && (r.act.ActUnmapped? <==> act.None?)
              && (r.act.ActLinked? <==> act.Some? && r.decision in act.value && act.value[r.decision] != [])
              && r.artifacts == (if r.act.ActLinked? then act.value[r.decision] else [])
              && r.rank == PriorityRank(r.decision) && r.score == Score(r.decision) && r.owner == Owner(r.decision)
              && r.action == ActionText(r.decision) && r.hours == EstimatedHours(r.decision)
              && forall f :: f in r.matched <==> f in DecisionFindings(r.decision) && f in present
    {
      ActMeans(r, present, act);
      MatchedMeans(r.decision, present);
    }
  }

  /** decide_orient: exactly the decisions some present finding calls for, by rank and falling score, each with what the
      act map holds for it. */
  method DecideOrient(o: Orient, act: ActMap) returns (d: Decide)
    ensures IsDecide(d, PresentIn(o), act) && d.sourceFindings == |o.findings| && d.evidencePresent == |PresentIn(o)|
    ensures forall f :: f in PresentIn(o) <==>
            exists r :: r in o.findings && r.evidence.EvidencePresent? && r.finding == f
    ensures forall e :: (exists f :: f in DecisionFindings(e) && f in PresentIn(o)) <==>
                        exists r :: r in d.decisions && r.decision == e
    ensures forall r :: r in d.decisions ==>
              && (r.act.ActUnmapped? <==> act.None?)
              && (r.act.ActLinked? <==> act.Some? && r.decision in act.value && act.value[r.decision] != [])
              && r.artifacts == (if r.act.ActLinked? then act.value[r.decision] else [])
              && r.rank == PriorityRank(r.decision) && r.score == Score(r.decision) && r.owner == Owner(r.decision)
              && r.action == ActionText(r.decision) && r.hours == EstimatedHours(r.decision)
              && forall f :: f in r.matched <==> f in DecisionFindings(r.decision) && f in PresentIn(o)
    ensures forall i, j :: 0 <= i < j < |d.decisions| ==>
              var a, b := d.decisions[i], d.decisions[j];
              a.rank < b.rank || (a.rank == b.rank && a.score > b.score)
    ensures d.p0Count == |set i | 0 <= i < |d.decisions| && d.decisions[i].rank == 0|
    ensures d.linkedCount == |set i | 0 <= i < |d.decisions| && d.decisions[i].act.ActLinked?|
    ensures d.missingCount == |set i | 0 <= i < |d.decisions| && d.decisions[i].act.ActMissing?|
  {
    hide Sort, CountIf, Earlier, Due, DECISIONS, Score, PriorityRank, Owner, ActionText, EstimatedHours,
         DecisionFindings, QUEUE;
    var found := PresentFindings(o.findings);
    assert found == PresentIn(o);
    var decisions := CollectDue(DECISIONS, found, act);
    decisions := Sort(ByQueue(), decisions);
    d := Decide(|o.findings|, |found|, |decisions|, CountIf(decisions, ReportIsP0()),
                CountIf(decisions, ReportIsLinked()), CountIf(decisions, ReportIsMissing()), decisions);
    QueuedIffCalledFor(d, found, act);
    assert forall e :: CalledFor(e, found) <==> exists f :: f in DecisionFindings(e) && f in found;
    DecideSays(d, found, act);
    DecideCounts(d);
    QueueIsFixed(d, found, act);
    QueueDescends();
    DueDescends(QUEUE, found, act);
  }

  lemma EarlierOrders()
    ensures TotalPreorder(ByQueue())
  {
    hide PriorityRank, Score, DecisionId, StrLe;
    forall x: DecisionReport, y: DecisionReport
      ensures ByQueue()(x, y) || ByQueue()(y, x)
    {
      StrLeTotal(DecisionId(x.decision), DecisionId(y.decision));
    }
    forall x: DecisionReport, y: DecisionReport, z: DecisionReport | ByQueue()(x, y) && ByQueue()(y, z)
      ensures ByQueue()(x, z)
    {
      var a, b, c := DecisionId(x.decision), DecisionId(y.decision), DecisionId(z.decision);
      if StrLe(a, b) && StrLe(b, c) {
        StrLeTransitive(a, b, c);
      }
    }
  }

  lemma {:induction false} DueJoin(a: seq<Decision>, b: seq<Decision>, present: set<Finding>, act: ActMap)
    ensures Due(a + b, present, act) == Due(a, present, act) + Due(b, present, act)
  {
    hide Matched, DecisionReportOf;
    if b == [] {
      assert a + b == a;
    } else {
      DueJoin(a, b[..|b| - 1], present, act);
      assert (a + b)[..|a + b| - 1] == a + b[..|b| - 1];
    }
  }

  lemma {:induction false} DueAmong(ds: seq<Decision>, present: set<Finding>, act: ActMap)
    ensures forall r :: r in Due(ds, present, act) ==> r.decision in ds
  {
    if ds != [] {
      DueAmong(ds[..|ds| - 1], present, act);
    }
  }

  lemma {:induction false} DueSorted(ds: seq<Decision>, present: set<Finding>, act: ActMap)
    requires forall i, j :: 0 <= i < j < |ds| ==> Earlier(ds[i], ds[j])
    ensures SortedBy(ByQueue(), Due(ds, present, act))
  {
    hide Earlier, Matched;
    if ds != [] {
      DueSorted(ds[..|ds| - 1], present, act);
      DueAmong(ds[..|ds| - 1], present, act);
    }
  }

  lemma Scores()
    ensures Score(Emergency2) == 25.0 && Score(Emergency1) == 12.5 && Score(P1No1) == 10.12 && Score(P1No2) == 7.0
    ensures Score(P2No1) == 7.5 && Score(P2No2) == 6.0
  {
    hide Round2;
    RoundsTo(25.0, 2500);
    RoundsTo(12.5, 1250);
    RoundsTo(10.125, 1012);
    RoundsTo(7.0, 700);
    RoundsTo(7.5, 750);
    RoundsTo(6.0, 600);
  }

  lemma QueueOrder()
    ensures forall i, j :: 0 <= i < j < |QUEUE| ==> Earlier(QUEUE[i], QUEUE[j])
    ensures !Earlier(Emergency1, Emergency2)
  {
    hide Score, WeightsOf, DecisionId, StrLe;
    Scores();
  }

  /** The queue lists the decisions that are due in one fixed order. */
  lemma QueueIsFixed(d: Decide, present: set<Finding>, act: ActMap)
    requires IsDecide(d, present, act)
    ensures d.decisions == Due(QUEUE, present, act)
  {
    hide Earlier, Matched, Score, Sort, Due;
    var rest := [P1No1, P1No2, P2No1, P2No2];
    var e1, e2, r := Due([Emergency1], present, act), Due([Emergency2], present, act), Due(rest, present, act);
    DueJoin([Emergency1] + [Emergency2], rest, present, act);
    DueJoin([Emergency1], [Emergency2], present, act);
    DueJoin([Emergency2] + [Emergency1], rest, present, act);
    DueJoin([Emergency2], [Emergency1], present, act);
    assert DECISIONS == ([Emergency1] + [Emergency2]) + rest && QUEUE == ([Emergency2] + [Emergency1]) + rest;
    QueueOrder();
    DueSorted(QUEUE, present, act);
    SortedStays(ByQueue(), Due(QUEUE, present, act));
    FirstTwo(e1, e2, r, present, act);
  }

  lemma FirstTwo(e1: seq<DecisionReport>, e2: seq<DecisionReport>, r: seq<DecisionReport>, present: set<Finding>,
                 act: ActMap)
    requires e1 == Due([Emergency1], present, act) && e2 == Due([Emergency2], present, act)
    requires !Earlier(Emergency1, Emergency2) && SortedBy(ByQueue(), e2 + e1 + r)
    ensures Sort(ByQueue(), e1 + e2 + r) == e2 + e1 + r
  {
    hide Earlier, Matched, Score, ActionText, Owner, EstimatedHours, PriorityRank;
    if e1 == [] || e2 == [] {
      assert e1 + e2 + r == e2 + e1 + r;
      SortedStays(ByQueue(), e2 + e1 + r);
    } else {
      var a, b := e1[0], e2[0];
      assert e1 == [a] && e2 == [b] && a.decision == Emergency1 && b.decision == Emergency2;
      Swapped(ByQueue(), a, b, r);
    }
  }

  lemma SortedTail<T>(le: (T, T) -> bool, a: T, b: T, r: seq<T>)
    requires SortedBy(le, [b] + [a] + r)
    ensures SortedBy(le, r) && (r != [] ==> le(b, r[0]) && le(a, r[0]))
  {
    var s := [b] + [a] + r;
    assert forall i :: 0 <= i < |r| ==> s[i + 2] == r[i];
    assert s[0] == b && s[1] == a;
  }

  lemma SortPair<T>(le: (T, T) -> bool, a: T, b: T, r: seq<T>)
    ensures Sort(le, [a] + [b] + r) == Insert(le, a, Insert(le, b, Sort(le, r)))
  {
    assert ([a] + [b] + r)[1..] == [b] + r && ([b] + r)[1..] == r;
    assert Sort(le, [b] + r) == Insert(le, b, Sort(le, r));
  }

  // Sorting puts two first elements the right way round.
  lemma Swapped<T>(le: (T, T) -> bool, a: T, b: T, r: seq<T>)
    requires SortedBy(le, [b] + [a] + r) && !le(a, b)
    ensures Sort(le, [a] + [b] + r) == [b] + [a] + r
  {
    hide Sort, SortedBy;
    SortPair(le, a, b, r);
    SortedTail(le, a, b, r);
    SortedStays(le, r);
    assert Insert(le, b, r) == [b] + r && Insert(le, a, r) == [a] + r;
    assert ([b] + r)[1..] == r;
    assert Insert(le, a, [b] + r) == [b] + ([a] + r);
  }

  // ---- Verify ----

  predicate FindingFails(r: FindingReport, policy: Policy) {
    r.evidence.EvidencePresent? && (policy.AnyPresent? || FindingSeverity(r.finding).Critical?)
  }

  method VerifyOrient(o: Orient, policy: Policy) returns (v: Verification)
    ensures v.failing == Filter(o.findings, (r: FindingReport) => FindingFails(r, policy))
    ensures forall r :: r in v.failing <==>
              && r in o.findings && r.evidence.EvidencePresent?
              && (policy.AnyPresent? || FindingSeverity(r.finding).Critical?)
    ensures v.passed <==> v.failing == []
    ensures v.checked == |o.findings|
  {
    var failing: seq<FindingReport> := [];
    for k := 0 to |o.findings|
      invariant failing == Filter(o.findings[..k], (r: FindingReport) => FindingFails(r, policy))
    {
      assert o.findings[..k + 1][..k] == o.findings[..k];
      if FindingFails(o.findings[k], policy) {
        failing := failing + [o.findings[k]];
      }
    }
    assert o.findings[..|o.findings|] == o.findings;
    v := Verification(failing == [], |o.findings|, failing);
    FilterMembers(o.findings, (r: FindingReport) => FindingFails(r, policy));
  }

  // ---- Status ----

  function Rank(h: Health): nat {
    match h
    case HealthOk => 0
    case HealthUnknown => 1
    case HealthWarning => 2
    case HealthCritical => 3
  }

  // status_max: the first of the highest rank.
  function StatusMax(hs: seq<Health>): Health {
    if hs == [] then HealthUnknown
    else if |hs| == 1 then hs[0]
    else
      var m := StatusMax(hs[..|hs| - 1]);
      if Rank(hs[|hs| - 1]) > Rank(m) then hs[|hs| - 1] else m
  }

  function SumOf(scan: Scan, severity: Severity, k: nat): nat
    requires k <= |PATTERNS|
  {
    if k == 0 then 0 else
      var p := PATTERNS[k - 1];
      SumOf(scan, severity, k - 1) + if PatternSeverity(p) == severity then PatternCount(scan, p) else 0
  }

  ghost function ObserveHealth(scan: Scan): Health {
    if SumOf(scan, Critical, |PATTERNS|) > 0 then HealthCritical
    else if SumOf(scan, Warning, |PATTERNS|) > 0 then HealthWarning
    else HealthOk
  }

  // summarize_observe: the loop over the scan's patterns.
  method SummarizeObserve(scan: Scan) returns (h: Health)
    ensures h == ObserveHealth(scan)
  {
    var critical: nat, warning: nat := 0, 0;
    for k := 0 to |PATTERNS|
      invariant critical == SumOf(scan, Critical, k) && warning == SumOf(scan, Warning, k)
    {
      var count := PatternCount(scan, PATTERNS[k]);
      if count > 0 {
        if PatternSeverity(PATTERNS[k]).Critical? {
          critical := critical + count;
        } else {
          warning := warning + count;
        }
      }
    }
    h := if critical > 0 then HealthCritical else if warning > 0 then HealthWarning else HealthOk;
  }

  function OrientHealth(o: Orient): Health {
    if o.criticalPresent > 0 then HealthCritical
    else if o.evidencePresent > 0 then HealthWarning
    else HealthOk
  }

  function DecideHealth(d: Decide): Health {
    if d.p0Count > 0 then HealthCritical else if |d.decisions| > 0 then HealthWarning else HealthOk
  }

  function ActHealth(d: Decide): Health {
    if d.missingCount > 0 then HealthCritical
    else if |d.decisions| == 0 || d.linkedCount > 0 then HealthOk
    else HealthWarning
  }

  function VerifyHealth(v: Verification): Health {
    if v.passed then HealthOk else HealthCritical
  }
}
