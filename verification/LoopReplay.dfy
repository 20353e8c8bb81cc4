/** The whole log pipeline, from raw lines to the overall status, without an audit catalog. */
module LoopReplay {
  import opened Lists
  import opened LoopModel
  import opened LoopPhases
  import opened Sorting

  // Some line of the log matches the pattern.
  ghost predicate Seen(log: seq<LogLine>, m: Matcher, p: Pattern) {
    exists l :: l in log && m(p, l.text)
  }

  ghost predicate FindingSeen(log: seq<LogLine>, m: Matcher, f: Finding) {
    exists p :: p in FindingPatterns(f) && Seen(log, m, p)
  }

  ghost predicate DecisionDue(log: seq<LogLine>, m: Matcher, d: Decision) {
    exists f :: f in DecisionFindings(d) && FindingSeen(log, m, f)
  }

  // The log alone is critical: a critical pattern, or a pattern of a critical finding, matches a line.
  ghost predicate LogCritical(log: seq<LogLine>, m: Matcher) {
    || (exists p :: PatternSeverity(p).Critical? && Seen(log, m, p))
    || (exists f :: FindingSeverity(f).Critical? && FindingSeen(log, m, f))
  }

  // A decision the findings call for has no artifact in the act map that was given.
  ghost predicate ActionMissing(log: seq<LogLine>, m: Matcher, act: ActMap) {
    act.Some? && exists d :: DecisionDue(log, m, d) && (d !in act.value || act.value[d] == [])
  }

  ghost predicate PolicyFails(log: seq<LogLine>, m: Matcher, policy: Policy) {
    exists f :: FindingSeen(log, m, f) && (policy.AnyPresent? || FindingSeverity(f).Critical?)
  }

  lemma CountMeansSeen(scan: Scan, log: seq<LogLine>, m: Matcher, maxSamples: nat, p: Pattern)
    requires IsScan(scan, log, m, maxSamples)
    ensures PatternCount(scan, p) > 0 <==> Seen(log, m, p)
  {
    CountsSome(log, Hits(m, p));
    assert (exists x :: x in log && Hits(m, p)(x)) <==> Seen(log, m, p);
  }

  lemma {:induction false} SumMeansSome(scan: Scan, ps: seq<Pattern>)
    ensures SumCounts(scan, ps) > 0 <==> exists p :: p in ps && PatternCount(scan, p) > 0
  {
    if ps != [] {
      SumMeansSome(scan, ps[..|ps| - 1]);
      assert forall p :: p in ps <==> p in ps[..|ps| - 1] || p == ps[|ps| - 1];
    }
  }

  lemma FindingMeansSeen(scan: Scan, log: seq<LogLine>, m: Matcher, maxSamples: nat, f: Finding)
    requires IsScan(scan, log, m, maxSamples)
    ensures FindingOf(scan, f).evidence.EvidencePresent? <==> FindingSeen(log, m, f)
  {
    SumMeansSome(scan, FindingPatterns(f));
    forall p
      ensures PatternCount(scan, p) > 0 <==> Seen(log, m, p)
    {
      CountMeansSeen(scan, log, m, maxSamples, p);
    }
    hide IsScan, Seen, FindingPatterns, PatternCount, JoinSamples;
  }

  lemma {:induction false} SumOfMeansSome(scan: Scan, severity: Severity, k: nat)
    requires k <= |PATTERNS|
    ensures SumOf(scan, severity, k) > 0 <==>
            exists p :: p in PATTERNS[..k] && PatternSeverity(p) == severity && PatternCount(scan, p) > 0
  {
    if k > 0 {
      hide PatternCount, PatternSeverity;
      SumOfMeansSome(scan, severity, k - 1);
      assert PATTERNS[..k] == PATTERNS[..k - 1] + [PATTERNS[k - 1]];
    }
  }

  lemma {:induction false} FindingsMembers(scan: Scan, k: nat)
    requires k <= |FINDINGS|
    ensures forall r :: r in FindingsUpTo(scan, k) <==> r.finding in FINDINGS[..k] && r == FindingOf(scan, r.finding)
  {
    if k > 0 {
      FindingsMembers(scan, k - 1);
      assert FINDINGS[..k] == FINDINGS[..k - 1] + [FINDINGS[k - 1]];
    }
  }

  lemma FindingsAre(scan: Scan)
    ensures forall r :: r in FindingsUpTo(scan, |FINDINGS|) <==> r == FindingOf(scan, r.finding)
  {
    FindingsMembers(scan, |FINDINGS|);
    AllFindings();
    assert FINDINGS[..|FINDINGS|] == FINDINGS;
    hide FindingOf, FindingsUpTo;
  }

  // ---- each phase's health in terms of the log ----

  lemma ObserveMeans(scan: Scan, log: seq<LogLine>, m: Matcher, maxSamples: nat)
    requires IsScan(scan, log, m, maxSamples)
    ensures ObserveHealth(scan).HealthCritical? <==> exists p :: PatternSeverity(p).Critical? && Seen(log, m, p)
    ensures ObserveHealth(scan).HealthOk? <==> forall p :: !Seen(log, m, p)
    ensures !ObserveHealth(scan).HealthUnknown?
  {
    hide IsScan, Seen, PatternCount, SumOf, PatternSeverity;
    AllPatterns();
    assert PATTERNS[..|PATTERNS|] == PATTERNS;
    SumOfMeansSome(scan, Critical, |PATTERNS|);
    SumOfMeansSome(scan, Warning, |PATTERNS|);
    forall p
      ensures PatternCount(scan, p) > 0 <==> Seen(log, m, p)
    {
      CountMeansSeen(scan, log, m, maxSamples, p);
    }
    forall p
      ensures PatternSeverity(p) == Critical || PatternSeverity(p) == Warning
    {
    }
  }

  // A finding is reported present exactly when one of its patterns was seen.
  ghost predicate Reported(o: Orient, log: seq<LogLine>, m: Matcher) {
    && (forall f :: FindingSeen(log, m, f) ==>
          exists r :: r in o.findings && r.finding == f && r.evidence.EvidencePresent?)
    && (forall r :: r in o.findings && r.evidence.EvidencePresent? ==> FindingSeen(log, m, r.finding))
  }

  lemma OrientReports(o: Orient, scan: Scan, log: seq<LogLine>, m: Matcher, maxSamples: nat)
    requires IsScan(scan, log, m, maxSamples) && IsOrient(o, scan)
    ensures Reported(o, log, m)
  {
    hide IsScan, FindingSeen, FindingOf, FindingsUpTo;
    FindingsAre(scan);
    forall f
      ensures FindingOf(scan, f).evidence.EvidencePresent? <==> FindingSeen(log, m, f)
      ensures FindingOf(scan, f).finding == f
    {
      FindingMeansSeen(scan, log, m, maxSamples, f);
      FindingOfFinding(scan, f);
    }
    forall f | FindingSeen(log, m, f)
      ensures exists r :: r in o.findings && r.finding == f && r.evidence.EvidencePresent?
    {
      assert FindingOf(scan, f) in o.findings;
    }
  }

  lemma FindingOfFinding(scan: Scan, f: Finding)
    ensures FindingOf(scan, f).finding == f
  {
  }

  lemma OrientMeans(o: Orient, scan: Scan, log: seq<LogLine>, m: Matcher)
    requires IsOrient(o, scan) && Reported(o, log, m)
    ensures OrientHealth(o).HealthCritical? <==> exists f :: FindingSeverity(f).Critical? && FindingSeen(log, m, f)
    ensures OrientHealth(o).HealthOk? <==> forall f :: !FindingSeen(log, m, f)
    ensures !OrientHealth(o).HealthUnknown?
  {
    hide FindingSeen, FindingSeverity, FindingsUpTo;
    CountsSome(o.findings, IsPresent());
    CountsSome(o.findings, IsCriticalPresent());
    if f :| FindingSeverity(f).Critical? && FindingSeen(log, m, f) {
      var r :| r in o.findings && r.finding == f && r.evidence.EvidencePresent?;
      assert IsCriticalPresent()(r) && IsPresent()(r);
    }
    if f :| FindingSeen(log, m, f) {
      var r :| r in o.findings && r.finding == f && r.evidence.EvidencePresent?;
      assert IsPresent()(r);
    }
  }

  lemma VerifyMeans(v: Verification, o: Orient, log: seq<LogLine>, m: Matcher, policy: Policy)
    requires Reported(o, log, m)
    requires v.failing == Filter(o.findings, (r: FindingReport) => FindingFails(r, policy))
    requires v.passed <==> v.failing == []
    ensures v.passed <==> !PolicyFails(log, m, policy)
  {
    hide FindingSeen, FindingSeverity;
    FilterMembers(o.findings, (r: FindingReport) => FindingFails(r, policy));
    if f :| FindingSeen(log, m, f) && (policy.AnyPresent? || FindingSeverity(f).Critical?) {
      var r :| r in o.findings && r.finding == f && r.evidence.EvidencePresent?;
      assert FindingFails(r, policy);
      assert r in v.failing;
    }
    if v.failing != [] {
      assert v.failing[0] in v.failing;
    }
  }

  // The queue lists exactly the decisions that are due.
  lemma QueueMeans(d: Decide, present: set<Finding>, act: ActMap, log: seq<LogLine>, m: Matcher)
    requires IsDecide(d, present, act)
    requires forall f :: f in present <==> FindingSeen(log, m, f)
    ensures forall e :: DecisionDue(log, m, e) <==> exists r :: r in d.decisions && r.decision == e
  {
    hide FindingSeen, DecisionFindings, IsDecide;
    QueuedIffCalledFor(d, present, act);
    assert forall e :: CalledFor(e, present) <==> DecisionDue(log, m, e);
  }

  lemma DecideMeans(d: Decide, present: set<Finding>, act: ActMap, log: seq<LogLine>, m: Matcher)
    requires IsDecide(d, present, act)
    requires forall f :: f in present <==> FindingSeen(log, m, f)
    ensures DecideHealth(d).HealthCritical? <==> exists e :: IsP0(e) && DecisionDue(log, m, e)
    ensures DecideHealth(d).HealthOk? <==> forall e :: !DecisionDue(log, m, e)
    ensures !DecideHealth(d).HealthUnknown? && !ActHealth(d).HealthUnknown?
    ensures d.decisions == [] ==> ActHealth(d).HealthOk?
  {
    hide FindingSeen, DecisionDue, IsP0, Due, Sort;
    QueueMeans(d, present, act, log, m);
    DecisionCounts(d);
    if d.decisions != [] {
      assert d.decisions[0] in d.decisions;
      assert DecisionDue(log, m, d.decisions[0].decision);
    }
  }

  lemma ActionsMean(d: Decide, present: set<Finding>, act: ActMap, log: seq<LogLine>, m: Matcher)
    requires IsDecide(d, present, act)
    requires forall f :: f in present <==> FindingSeen(log, m, f)
    ensures ActHealth(d).HealthCritical? <==> ActionMissing(log, m, act)
  {
    hide FindingSeen, DecisionDue, Due, Sort, DecisionFindings;
    QueueMeans(d, present, act, log, m);
    DecideSays(d, present, act);
    DecisionCounts(d);
  }

  lemma DecisionCounts(d: Decide)
    ensures CountIf(d.decisions, ReportIsP0()) > 0 <==> exists r :: r in d.decisions && IsP0(r.decision)
    ensures CountIf(d.decisions, ReportIsMissing()) > 0 <==> exists r :: r in d.decisions && r.act.ActMissing?
    ensures |d.decisions| > 0 <==> exists r :: r in d.decisions
  {
    CountsSome(d.decisions, ReportIsP0());
    CountsSome(d.decisions, ReportIsMissing());
    assert d.decisions != [] ==> d.decisions[0] in d.decisions;
    assert forall r :: ReportIsP0()(r) <==> IsP0(r.decision);
    assert forall r :: ReportIsMissing()(r) <==> r.act.ActMissing?;
  }

  // The decisions that are P0 answer critical findings.
  lemma P0IsCritical(log: seq<LogLine>, m: Matcher, d: Decision)
    requires IsP0(d) && DecisionDue(log, m, d)
    ensures LogCritical(log, m)
  {
    hide FindingSeen, Seen;
    var f :| f in DecisionFindings(d) && FindingSeen(log, m, f);
    assert FindingSeverity(f).Critical?;
  }

  lemma NothingSeen(log: seq<LogLine>, m: Matcher)
    requires forall p :: !Seen(log, m, p)
    ensures forall f :: !FindingSeen(log, m, f)
    ensures forall d :: !DecisionDue(log, m, d)
    ensures forall act :: !ActionMissing(log, m, act)
    ensures forall policy :: !PolicyFails(log, m, policy)
  {
    hide Seen, FindingPatterns, DecisionFindings;
  }

  lemma {:induction false} StatusMaxIsHighest(hs: seq<Health>)
    requires hs != []
    ensures StatusMax(hs) in hs
    ensures forall i :: 0 <= i < |hs| ==> Rank(hs[i]) <= Rank(StatusMax(hs))
  {
    if |hs| > 1 {
      StatusMaxIsHighest(hs[..|hs| - 1]);
    }
  }

  // What the overall status says about the log, the act map and the policy.
  ghost predicate StatusExplained(h: Health, log: seq<LogLine>, m: Matcher, act: ActMap, policy: Policy) {
    && (h.HealthCritical? <==> LogCritical(log, m) || ActionMissing(log, m, act) || PolicyFails(log, m, policy))
    && (h.HealthOk? <==> forall p :: !Seen(log, m, p))
    && !h.HealthUnknown?
  }

  lemma CombinePhases(observe: Health, orient: Health, decide: Health, action: Health, verify: Health, overall: Health)
    requires overall == StatusMax([observe, orient, decide, action, verify])
    ensures Rank(overall) >= Rank(observe) && Rank(overall) >= Rank(orient) && Rank(overall) >= Rank(decide)
    ensures Rank(overall) >= Rank(action) && Rank(overall) >= Rank(verify)
    ensures overall in [observe, orient, decide, action, verify]
  {
    var hs := [observe, orient, decide, action, verify];
    StatusMaxIsHighest(hs);
    assert hs[0] == observe && hs[1] == orient && hs[2] == decide && hs[3] == action && hs[4] == verify;
  }

  lemma ExplainStatus(observe: Health, orient: Health, decide: Health, action: Health, verify: Health, overall: Health,
                      log: seq<LogLine>, m: Matcher, act: ActMap, policy: Policy)
    requires overall == StatusMax([observe, orient, decide, action, verify])
    requires observe.HealthCritical? <==> exists p :: PatternSeverity(p).Critical? && Seen(log, m, p)
    requires observe.HealthOk? <==> forall p :: !Seen(log, m, p)
    requires orient.HealthCritical? <==> exists f :: FindingSeverity(f).Critical? && FindingSeen(log, m, f)
    requires orient.HealthOk? <==> forall f :: !FindingSeen(log, m, f)
    requires decide.HealthCritical? <==> exists d :: IsP0(d) && DecisionDue(log, m, d)
    requires decide.HealthOk? <==> forall d :: !DecisionDue(log, m, d)
    requires action.HealthCritical? <==> ActionMissing(log, m, act)
    requires decide.HealthOk? ==> action.HealthOk?
    requires verify == if PolicyFails(log, m, policy) then HealthCritical else HealthOk
    requires !observe.HealthUnknown? && !orient.HealthUnknown? && !decide.HealthUnknown? && !action.HealthUnknown?
    ensures StatusExplained(overall, log, m, act, policy)
  {
    hide Seen, FindingSeen, DecisionDue, ActionMissing, PolicyFails, StatusMax, PatternSeverity, FindingSeverity, IsP0;
    CombinePhases(observe, orient, decide, action, verify, overall);
    if d :| IsP0(d) && DecisionDue(log, m, d) {
      P0IsCritical(log, m, d);
    }
    if forall p :: !Seen(log, m, p) {
      NothingSeen(log, m);
    }
  }

  lemma AnyLineMatched(log: seq<LogLine>, m: Matcher)
    ensures CountIf(log, AnyHit(m)) == 0 <==> forall p :: !Seen(log, m, p)
  {
    CountsSome(log, AnyHit(m));
    if l :| l in log && AnyHit(m)(l) {
      var p :| m(p, l.text);
      assert Seen(log, m, p);
    }
    if p :| Seen(log, m, p) {
      var l :| l in log && m(p, l.text);
      assert AnyHit(m)(l);
    }
  }

  /** One replay: scan, orient, decide, verify, report. */
  method Replay(log: seq<LogLine>, m: Matcher, maxSamples: nat, act: ActMap, policy: Policy)
    returns (overall: Health, scan: Scan, verified: bool)
    // The overall status is ok exactly when no line of the log matches any pattern, critical exactly
    // for the three reasons named, and warning otherwise.
    ensures StatusExplained(overall, log, m, act, policy)
    ensures overall.HealthOk? <==> scan.matchedLines == 0
    ensures verified <==> !PolicyFails(log, m, policy)
  {
    hide LogCritical, ActionMissing, PolicyFails, Seen, FindingSeen, DecisionDue, ObserveHealth, StatusMax;
    scan := ScanLogs(log, m, maxSamples);
    var o := OrientScan(scan);
    OrientReports(o, scan, log, m, maxSamples);
    var d := DecideOrient(o, act);
    var v := VerifyOrient(o, policy);
    var observe := SummarizeObserve(scan);
    overall := StatusMax([observe, OrientHealth(o), DecideHealth(d), ActHealth(d), VerifyHealth(v)]);
    verified := v.passed;

    ObserveMeans(scan, log, m, maxSamples);
    OrientMeans(o, scan, log, m);
    VerifyMeans(v, o, log, m, policy);
    DecideMeans(d, PresentIn(o), act, log, m);
    ActionsMean(d, PresentIn(o), act, log, m);
    ExplainStatus(observe, OrientHealth(o), DecideHealth(d), ActHealth(d), VerifyHealth(v), overall, log, m, act,
                  policy);
    AnyLineMatched(log, m);
  }

  // ---- from patterns to verdicts, through the tables ----

  // The patterns of the critical findings, and those that are critical themselves.
  const OF_CRITICAL_FINDINGS := {
    KeeperSkippingTurn, PricingCatalogMiss, ProviderHealthSkipped, CredentialArchivedStarvation, AliveButStuck,
    KeeperCheckpointMigrationDataLoss}

  lemma FindingPatternsAre()
    ensures forall p: Pattern :: p in OF_CRITICAL_FINDINGS <==>
              exists f: Finding :: FindingSeverity(f).Critical? && p in FindingPatterns(f)
  {
    forall p: Pattern | p in OF_CRITICAL_FINDINGS
      ensures exists f: Finding :: FindingSeverity(f).Critical? && p in FindingPatterns(f)
    {
      var f :=
        match p
        case KeeperSkippingTurn => RFatal1
        case PricingCatalogMiss => CF1
        case ProviderHealthSkipped => NF1
        case CredentialArchivedStarvation => NF2
        case AliveButStuck => NF3
        case _ => NF8;
      assert FindingPatterns(f)[0] == p;
    }
  }

  /** The log alone is critical exactly if a line matches one of seven patterns, and the strict policy fails exactly on
      six of them: invalid UTF-8 that was repaired is in no finding. */
  lemma CriticalPatterns(log: seq<LogLine>, m: Matcher)
    ensures LogCritical(log, m) <==> exists p :: p in OF_CRITICAL_FINDINGS + {Utf8Repair} && Seen(log, m, p)
    ensures PolicyFails(log, m, CriticalOnly) <==> exists p :: p in OF_CRITICAL_FINDINGS && Seen(log, m, p)
  {
    hide Seen, FindingPatterns, FindingSeverity;
    FindingPatternsAre();
    forall p: Pattern
      ensures PatternSeverity(p).Critical? ==> p in OF_CRITICAL_FINDINGS + {Utf8Repair}
      ensures PatternSeverity(Utf8Repair).Critical?
    {
    }
    if p :| p in OF_CRITICAL_FINDINGS && Seen(log, m, p) {
      var f: Finding :| FindingSeverity(f).Critical? && p in FindingPatterns(f);
      assert FindingSeen(log, m, f);
    }
  }

  /** Which lines call for which decision. */
  lemma DecisionPatterns(log: seq<LogLine>, m: Matcher)
    ensures DecisionDue(log, m, Emergency1) <==> Seen(log, m, CredentialArchivedStarvation)
    ensures DecisionDue(log, m, Emergency2) <==> Seen(log, m, ProviderHealthSkipped)
    ensures DecisionDue(log, m, P1No1) <==> Seen(log, m, AliveButStuck) || Seen(log, m, KeeperSkippingTurn)
    ensures DecisionDue(log, m, P1No2) <==> Seen(log, m, PricingCatalogMiss)
    ensures DecisionDue(log, m, P2No1) <==> Seen(log, m, ConfigUnknownKey)
    ensures DecisionDue(log, m, P2No2) <==> Seen(log, m, GovernanceUnparseable) || Seen(log, m, LenientJsonFallback)
  {
    hide Seen;
    FindingByPattern(log, m, NF2, CredentialArchivedStarvation);
    FindingByPattern(log, m, NF1, ProviderHealthSkipped);
    FindingByPattern(log, m, NF3, AliveButStuck);
    FindingByPattern(log, m, RFatal1, KeeperSkippingTurn);
    FindingByPattern(log, m, CF1, PricingCatalogMiss);
    FindingByPattern(log, m, NF6, ConfigUnknownKey);
    GovernanceFinding(log, m);
    hide FindingSeen;
    DueByFinding(log, m, Emergency1, NF2);
    DueByFinding(log, m, Emergency2, NF1);
    DueByFinding(log, m, P1No2, CF1);
    DueByFinding(log, m, P2No1, NF6);
    DueByFinding(log, m, P2No2, NF4);
    RecoveryDecision(log, m);
    hide DecisionDue;
  }

  lemma FindingByPattern(log: seq<LogLine>, m: Matcher, f: Finding, p: Pattern)
    requires FindingPatterns(f) == [p]
    ensures FindingSeen(log, m, f) <==> Seen(log, m, p)
  {
    hide Seen;
    assert p in FindingPatterns(f);
  }

  lemma GovernanceFinding(log: seq<LogLine>, m: Matcher)
    ensures FindingSeen(log, m, NF4) <==> Seen(log, m, GovernanceUnparseable) || Seen(log, m, LenientJsonFallback)
  {
    hide Seen;
    var ps := FindingPatterns(NF4);
    assert ps[0] == GovernanceUnparseable && ps[1] == LenientJsonFallback;
    assert ps[0] in ps && ps[1] in ps;
  }

  lemma DueByFinding(log: seq<LogLine>, m: Matcher, d: Decision, f: Finding)
    requires DecisionFindings(d) == [f]
    ensures DecisionDue(log, m, d) <==> FindingSeen(log, m, f)
  {
    hide FindingSeen;
    assert f in DecisionFindings(d);
  }

  lemma RecoveryDecision(log: seq<LogLine>, m: Matcher)
    ensures DecisionDue(log, m, P1No1) <==> FindingSeen(log, m, NF3) || FindingSeen(log, m, RFatal1)
  {
    hide FindingSeen;
    var fs := DecisionFindings(P1No1);
    assert fs[0] == NF3 && fs[1] == RFatal1;
    assert fs[0] in fs && fs[1] in fs;
  }
}
