/** The fixed tables of the GOAL LOOP log pipeline and the reports its phases exchange. */
module LoopModel {
  import opened Rounding
  import opened Sorting

  datatype Severity = Critical | Warning

  datatype Pattern =
    | KeeperSkippingTurn | KeeperKeepaliveOnly | PricingCatalogMiss | ProviderHealthSkipped
    | CredentialArchivedStarvation | AliveButStuck | GovernanceUnparseable | LenientJsonFallback
    | Utf8Repair | CasRetry | ConfigUnknownKey | AutobootWarmup | ToolPolicyUnknownTools
    | KeeperCheckpointMigrationDataLoss | MetricAllZero

  const PATTERNS: seq<Pattern> := [
    KeeperSkippingTurn, KeeperKeepaliveOnly, PricingCatalogMiss, ProviderHealthSkipped,
    CredentialArchivedStarvation, AliveButStuck, GovernanceUnparseable, LenientJsonFallback,
    Utf8Repair, CasRetry, ConfigUnknownKey, AutobootWarmup, ToolPolicyUnknownTools,
    KeeperCheckpointMigrationDataLoss, MetricAllZero]

  function PatternSeverity(p: Pattern): Severity {
    match p
    case KeeperSkippingTurn | PricingCatalogMiss | CredentialArchivedStarvation | AliveButStuck
       | Utf8Repair | KeeperCheckpointMigrationDataLoss => Critical
    case _ => Warning
  }

  datatype Finding = RFatal1 | CF1 | NF1 | NF2 | NF3 | NF4 | NF5 | NF6 | NF7 | NF8

  const FINDINGS: seq<Finding> := [RFatal1, CF1, NF1, NF2, NF3, NF4, NF5, NF6, NF7, NF8]

  function FindingPatterns(f: Finding): seq<Pattern> {
    match f
    case RFatal1 => [KeeperSkippingTurn]
    case CF1 => [PricingCatalogMiss]
    case NF1 => [ProviderHealthSkipped]
    case NF2 => [CredentialArchivedStarvation]
    case NF3 => [AliveButStuck]
    case NF4 => [GovernanceUnparseable, LenientJsonFallback]
    case NF5 => [AutobootWarmup]
    case NF6 => [ConfigUnknownKey]
    case NF7 => [ToolPolicyUnknownTools]
    case NF8 => [KeeperCheckpointMigrationDataLoss]
  }

  function FindingSeverity(f: Finding): Severity {
    match f
    case NF4 | NF5 | NF6 | NF7 => Warning
    case _ => Critical
  }

  datatype Decision = Emergency1 | Emergency2 | P1No1 | P1No2 | P2No1 | P2No2

  const DECISIONS: seq<Decision> := [Emergency1, Emergency2, P1No1, P1No2, P2No1, P2No2]

  function DecisionFindings(d: Decision): seq<Finding> {
    match d
    case Emergency1 => [NF2]
    case Emergency2 => [NF1]
    case P1No1 => [NF3, RFatal1]
    case P1No2 => [CF1]
    case P2No1 => [NF6]
    case P2No2 => [NF4]
  }

  function DecisionId(d: Decision): string {
    match d
    case Emergency1 => "D-EMERGENCY-1"
    case Emergency2 => "D-EMERGENCY-2"
    case P1No1 => "D-P1-1"
    case P1No2 => "D-P1-2"
    case P2No1 => "D-P2-1"
    case P2No2 => "D-P2-2"
  }

  // PRIORITY_RANK of the decision's priority.
  function PriorityRank(d: Decision): nat {
    match d
    case Emergency1 | Emergency2 => 0
    case P1No1 | P1No2 => 1
    case P2No1 | P2No2 => 2
  }

  datatype Weights = Weights(impact: nat, urgency: nat, difficulty: nat)

  function WeightsOf(d: Decision): Weights {
    match d
    case Emergency1 => Weights(10, 10, 8)
    case Emergency2 => Weights(10, 10, 4)
    case P1No1 => Weights(9, 9, 8)
    case P1No2 => Weights(8, 7, 8)
    case P2No1 => Weights(6, 5, 4)
    case P2No2 => Weights(6, 5, 5)
  }

  // priority_score, rounded.
  function Score(d: Decision): real {
    var w := WeightsOf(d);
    Round2((w.impact * w.urgency) as real / (if w.difficulty > 1 then w.difficulty else 1) as real)
  }

  function ActionText(d: Decision): string {
    match d
    case Emergency1 => "Slot forced reclaim + keeper credential auto-recovery"
    case Emergency2 => "Run bootstrap provider health checks instead of advisory skip"
    case P1No1 => "Execute recovery strategy and add keeper fallback ladder"
    case P1No2 => "Add provider discovery/pricing refresh path for catalog misses"
    case P2No1 => "Enforce keeper TOML schema for unknown keys"
    case P2No2 => "Make governance judge parse failure strict and observable"
  }

  function Owner(d: Decision): string {
    match d
    case Emergency1 => "concurrency"
    case Emergency2 => "provider"
    case P1No1 => "keeper"
    case P1No2 => "provider"
    case P2No1 => "config"
    case P2No2 => "governance"
  }

  function EstimatedHours(d: Decision): nat {
    match d
    case Emergency1 => 8
    case Emergency2 => 4
    case P1No1 => 16
    case P1No2 => 24
    case P2No1 => 8
    case P2No2 => 8
  }

  // The sort key: rank, then the higher score, then the identifier.
  predicate Earlier(a: Decision, b: Decision) {
    || PriorityRank(a) < PriorityRank(b)
    || (PriorityRank(a) == PriorityRank(b) && Score(a) > Score(b))
    || (PriorityRank(a) == PriorityRank(b) && Score(a) == Score(b) && StrLe(DecisionId(a), DecisionId(b)))
  }

  // The decisions in order of the queue.
  const QUEUE: seq<Decision> := [Emergency2, Emergency1, P1No1, P1No2, P2No1, P2No2]

  predicate IsP0(d: Decision) {
    PriorityRank(d) == 0
  }

  // ---- what the phases read and write ----

  datatype LogLine = LogLine(path: string, number: nat, text: string)

  // The paths of the log in order of first appearance.
  function FilesOf(log: seq<LogLine>): seq<string> {
    if log == [] then [] else
      var before, path := FilesOf(log[..|log| - 1]), log[|log| - 1].path;
      if path in before then before else before + [path]
  }

  // The paths of the lines, each once, and those of a beginning of the log come first.
  lemma {:induction false} FilesAreFirstSeen(log: seq<LogLine>, n: nat)
    requires n <= |log|
    ensures Distinct(FilesOf(log)) && FilesOf(log[..n]) <= FilesOf(log)
    ensures forall p :: p in FilesOf(log) <==> exists l :: l in log && l.path == p
  {
    if log != [] {
      var t, l := log[..|log| - 1], log[|log| - 1];
      FilesAreFirstSeen(t, if n < |log| then n else |t|);
      assert forall x :: x in log <==> x in t || x == l;
      assert n < |log| ==> t[..n] == log[..n];
      assert log[..|log|] == log;
    }
  }

  datatype PatternReport = PatternReport(count: nat, samples: seq<LogLine>)

  // A report after one more matching line.
  function Bumped(r: PatternReport, line: LogLine, maxSamples: nat): PatternReport {
    PatternReport(r.count + 1, if |r.samples| < maxSamples then r.samples + [line] else r.samples)
  }

  datatype Scan = Scan(files: seq<string>, totalLines: nat, matchedLines: nat, patterns: map<Pattern, PatternReport>)

  datatype Evidence = EvidencePresent | EvidenceAbsent

  datatype FindingReport = FindingReport(finding: Finding, evidence: Evidence, count: nat, samples: seq<LogLine>)

  datatype Orient = Orient(evidencePresent: nat, evidenceAbsent: nat, criticalPresent: nat,
                           findings: seq<FindingReport>)

  datatype ActStatus = ActUnmapped | ActLinked | ActMissing

  datatype DecisionReport = DecisionReport(
    decision: Decision, rank: nat, matched: seq<Finding>, action: string, owner: string, hours: nat, score: real,
    act: ActStatus, artifacts: seq<string>)

  datatype Decide = Decide(sourceFindings: nat, evidencePresent: nat, total: nat, p0Count: nat, linkedCount: nat,
                           missingCount: nat, decisions: seq<DecisionReport>)

  datatype Policy = CriticalOnly | AnyPresent

  datatype Verification = Verification(passed: bool, checked: nat, failing: seq<FindingReport>)

  datatype Health = HealthOk | HealthUnknown | HealthWarning | HealthCritical

  lemma AllPatterns()
    ensures forall p: Pattern :: p in PATTERNS
  {
    forall p: Pattern
      ensures p in PATTERNS
    {
      match p
      case KeeperSkippingTurn => assert PATTERNS[0] == p;
      case KeeperKeepaliveOnly => assert PATTERNS[1] == p;
      case PricingCatalogMiss => assert PATTERNS[2] == p;
      case ProviderHealthSkipped => assert PATTERNS[3] == p;
      case CredentialArchivedStarvation => assert PATTERNS[4] == p;
      case AliveButStuck => assert PATTERNS[5] == p;
      case GovernanceUnparseable => assert PATTERNS[6] == p;
      case LenientJsonFallback => assert PATTERNS[7] == p;
      case Utf8Repair => assert PATTERNS[8] == p;
      case CasRetry => assert PATTERNS[9] == p;
      case ConfigUnknownKey => assert PATTERNS[10] == p;
      case AutobootWarmup => assert PATTERNS[11] == p;
      case ToolPolicyUnknownTools => assert PATTERNS[12] == p;
      case KeeperCheckpointMigrationDataLoss => assert PATTERNS[13] == p;
      case MetricAllZero => assert PATTERNS[14] == p;
    }
  }

  lemma AllFindings()
    ensures forall f: Finding :: f in FINDINGS
  {
    forall f: Finding
      ensures f in FINDINGS
    {
      match f
      case RFatal1 => assert FINDINGS[0] == f;
      case CF1 => assert FINDINGS[1] == f;
      case NF1 => assert FINDINGS[2] == f;
      case NF2 => assert FINDINGS[3] == f;
      case NF3 => assert FINDINGS[4] == f;
      case NF4 => assert FINDINGS[5] == f;
      case NF5 => assert FINDINGS[6] == f;
      case NF6 => assert FINDINGS[7] == f;
      case NF7 => assert FINDINGS[8] == f;
      case NF8 => assert FINDINGS[9] == f;
    }
  }

  lemma AllDecisions()
    ensures forall d: Decision :: d in DECISIONS
  {
    forall d: Decision
      ensures d in DECISIONS
    {
      match d
      case Emergency1 => assert DECISIONS[0] == d;
      case Emergency2 => assert DECISIONS[1] == d;
      case P1No1 => assert DECISIONS[2] == d;
      case P1No2 => assert DECISIONS[3] == d;
      case P2No1 => assert DECISIONS[4] == d;
      case P2No2 => assert DECISIONS[5] == d;
    }
  }
}
