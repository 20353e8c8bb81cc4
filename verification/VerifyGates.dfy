/** The strict Verify pipeline: the report one script builds and the closeout check another applies to it. */
module VerifyGates {
  import opened Lists
  import LogContract
  import LoopModel

  // The fourteen gate ids of the contract.
  datatype GateId =
    | UnitTests | TurnSuccessRate | NoSemaphoreSkip | NoPricingMiss | NoUtf8Repair | RecoveryExecuted
    | AdmissionBackpressure | SnapshotLatency | NoStillPresent | NoNewFinding
    | TlaTierRouting | TlaValidation | TlaLiveness | PostActLogContract

  const REQUIRED: seq<GateId> := [
    UnitTests, TurnSuccessRate, NoSemaphoreSkip, NoPricingMiss, NoUtf8Repair, RecoveryExecuted,
    AdmissionBackpressure, SnapshotLatency, NoStillPresent, NoNewFinding,
    TlaTierRouting, TlaValidation, TlaLiveness, PostActLogContract]

  // A string found where a gate id belongs: one of the contract's, or any other.
  datatype Name = Known(id: GateId) | Other(text: string)

  datatype GateStatus = Pass | Fail | Blocked | Skipped

  datatype Gate = Gate(id: GateId, status: GateStatus)

  datatype Report = Report(schemaVersion: int, status: GateStatus, total: nat, passed: nat, failed: nat,
                           blocked: nat, skipped: nat, gates: seq<Gate>)

  // ---- the producer ----

  datatype Metric =
    | KeeperTurnSuccessRate | SkippingTurnRate | PricingMissTotal | Utf8RepairTotal | RecoveryTotal
    | QueueDepth | QueueWaitMs | LatencyP99 | StillPresent | NewFinding

  // A metric snapshot, when one was supplied; a key without a number in it has no entry.
  type Metrics = Option<map<Metric, real>>

  datatype Test = IsZero | AboveZero | Above95 | Below5

  predicate Satisfies(x: real, t: Test) {
    match t
    case IsZero => x == 0.0
    case AboveZero => x > 0.0
    case Above95 => x > 0.95
    case Below5 => x < 5.0
  }

  function MetricGate(metrics: Metrics, id: GateId, metric: Metric, t: Test): Gate {
    Gate(id,
         if metrics.None? || metric !in metrics.value then Blocked
         else if Satisfies(metrics.value[metric], t) then Pass
         else Fail)
  }

  function AdmissionGate(metrics: Metrics): Gate {
    Gate(AdmissionBackpressure,
         if metrics.None? || (QueueDepth !in metrics.value && QueueWaitMs !in metrics.value) then Blocked
         else if (QueueDepth in metrics.value && metrics.value[QueueDepth] > 0.0) ||
                 (QueueWaitMs in metrics.value && metrics.value[QueueWaitMs] > 0.0) then Pass
         else Fail)
  }

  function MetricGates(metrics: Metrics): seq<Gate> {
    [MetricGate(metrics, TurnSuccessRate, KeeperTurnSuccessRate, Above95),
     MetricGate(metrics, NoSemaphoreSkip, SkippingTurnRate, IsZero),
     MetricGate(metrics, NoPricingMiss, PricingMissTotal, IsZero),
     MetricGate(metrics, NoUtf8Repair, Utf8RepairTotal, IsZero),
     MetricGate(metrics, RecoveryExecuted, RecoveryTotal, AboveZero),
     AdmissionGate(metrics),
     MetricGate(metrics, SnapshotLatency, LatencyP99, Below5),
     MetricGate(metrics, NoStillPresent, StillPresent, IsZero),
     MetricGate(metrics, NoNewFinding, NewFinding, IsZero)]
  }

  // One prompt TLA spec: whether its file is there, and whether a supplied result says PASS.
  datatype Tla = Tla(found: bool, result: Option<bool>)

  function TlaGate(id: GateId, t: Tla): Gate {
    Gate(id, if !t.found then Blocked else if t.result.None? then Skipped else if t.result.value then Pass else Fail)
  }

  // build_tla_gates: the loop over the prompt specs.
  method BuildTlaGates(specs: seq<Tla>) returns (gates: seq<Gate>)
    requires |specs| == 3
    ensures gates == [TlaGate(TlaTierRouting, specs[0]), TlaGate(TlaValidation, specs[1]),
                      TlaGate(TlaLiveness, specs[2])]
  {
    var ids := [TlaTierRouting, TlaValidation, TlaLiveness];
    gates := [];
    for k := 0 to 3
      invariant |gates| == k && forall i :: 0 <= i < k ==> gates[i] == TlaGate(ids[i], specs[i])
    {
      if !specs[k].found {
        gates := gates + [Gate(ids[k], Blocked)];
      } else if specs[k].result.None? {
        gates := gates + [Gate(ids[k], Skipped)];
      } else {
        gates := gates + [Gate(ids[k], if specs[k].result.value then Pass else Fail)];
      }
    }
  }

  function UnitGate(reportedPassed: bool, reportedFailed: bool): Gate {
    Gate(UnitTests,
         if reportedPassed && reportedFailed then Fail
         else if reportedPassed then Pass
         else if reportedFailed then Fail
         else Skipped)
  }

  const MUST_CONTAIN := [
    "recovery_strategy_executed", "provider_health_probe_completed", "fallback_ladder_activated"]

  const MUST_NOT_CONTAIN := [
    "skipping turn.*semaphore wait", "pricing_catalog_miss", "persistence UTF-8 repaired", "alive-but-stuck detected",
    "Lenient_json fallback hit", "archived credential.*starvation"]

  // The lines of the post-Act logs, if any logs were given, and which line a pattern is found in.
  datatype PostAct = PostAct(log: Option<seq<LoopModel.LogLine>>, finds: LogContract.Finds)

  ghost predicate LogsHold(p: PostAct) {
    p.log.Some? && LogContract.ContractHolds(p.log.value, p.finds, MUST_CONTAIN, MUST_NOT_CONTAIN)
  }

  ghost function LogGate(p: PostAct): Gate {
    Gate(PostActLogContract, if p.log.None? then Blocked else if LogsHold(p) then Pass else Fail)
  }

  // build_log_gate
  method BuildLogGate(p: PostAct) returns (g: Gate)
    ensures g == LogGate(p)
  {
    hide MUST_CONTAIN, MUST_NOT_CONTAIN;
    if p.log.None? {
      return Gate(PostActLogContract, Blocked);
    }
    var report := LogContract.VerifyLogContract(p.log.value, p.finds, MUST_CONTAIN, MUST_NOT_CONTAIN, 3);
    LogContract.PassesIffHolds(report, p.log.value, p.finds, MUST_CONTAIN, MUST_NOT_CONTAIN, 3);
    return Gate(PostActLogContract, if report.passed then Pass else Fail);
  }

  function HasId(id: GateId): Gate -> bool {
    (g: Gate) => g.id == id
  }

  function HasStatus(s: GateStatus): Gate -> bool {
    (g: Gate) => g.status == s
  }

  ghost predicate EachRequiredOnce(gates: seq<Gate>) {
    forall id :: CountIf(gates, HasId(id)) == 1
  }

  function IsName(n: Name): Name -> bool {
    (x: Name) => x == n
  }

  // Each required id once, and nothing else.
  ghost predicate IsContract(emitted: seq<Name>) {
    forall n: Name :: CountIf(emitted, IsName(n)) == if n.Known? then 1 else 0
  }

  // The drift guard: a count per id, then missing, extra and repeated ids.
  method GateIdsMatchRequired(emitted: seq<Name>) returns (ok: bool)
    ensures ok <==> IsContract(emitted)
  {
    var counts: map<Name, nat> := map[];
    for i := 0 to |emitted|
      invariant forall n :: (if n in counts then counts[n] else 0) == CountIf(emitted[..i], IsName(n))
      invariant forall n :: n in counts ==> counts[n] > 0
    {
      assert emitted[..i + 1][..i] == emitted[..i];
      var n := emitted[i];
      counts := counts[n := (if n in counts then counts[n] else 0) + 1];
    }
    assert emitted[..|emitted|] == emitted;
    var required := set id | id in REQUIRED :: Known(id);
    var duplicates := set n | n in counts && counts[n] > 1;
    var missing, extra := required - counts.Keys, counts.Keys - required;
    ok := missing == {} && extra == {} && duplicates == {};
    RequiredNames(required);
    if ok {
      forall n: Name
        ensures CountIf(emitted, IsName(n)) == if n.Known? then 1 else 0
      {
        assert n !in missing && n !in extra && n !in duplicates;
      }
    } else if n :| n in missing + extra + duplicates {
      assert CountIf(emitted, IsName(n)) != if n.Known? then 1 else 0;
    }
  }

  lemma RequiredNames(required: set<Name>)
    requires required == set id | id in REQUIRED :: Known(id)
    ensures forall n: Name :: n in required <==> n.Known?
  {
    AllRequired();
  }

  function Emitted(gates: seq<Gate>): seq<Name> {
    seq(|gates|, i requires 0 <= i < |gates| => Known(gates[i].id))
  }

  lemma {:induction false} EmittedCounts(gates: seq<Gate>, n: Name)
    ensures CountIf(Emitted(gates), IsName(n)) == if n.Known? then CountIf(gates, HasId(n.id)) else 0
  {
    if gates != [] {
      var t := gates[..|gates| - 1];
      EmittedCounts(t, n);
      assert Emitted(gates) == Emitted(t) + [Known(gates[|gates| - 1].id)];
      assert Emitted(gates)[..|gates| - 1] == Emitted(t);
    }
  }

  lemma EmittedIsContract(gates: seq<Gate>)
    requires EachRequiredOnce(gates)
    ensures IsContract(Emitted(gates))
  {
    forall n: Name
      ensures CountIf(Emitted(gates), IsName(n)) == if n.Known? then 1 else 0
    {
      EmittedCounts(gates, n);
    }
  }

  lemma AllRequired()
    ensures forall id: GateId :: id in REQUIRED
    ensures |REQUIRED| == 14
  {
    forall id: GateId
      ensures id in REQUIRED
    {
      match id
      case UnitTests => assert REQUIRED[0] == id;
      case TurnSuccessRate => assert REQUIRED[1] == id;
      case NoSemaphoreSkip => assert REQUIRED[2] == id;
      case NoPricingMiss => assert REQUIRED[3] == id;
      case NoUtf8Repair => assert REQUIRED[4] == id;
      case RecoveryExecuted => assert REQUIRED[5] == id;
      case AdmissionBackpressure => assert REQUIRED[6] == id;
      case SnapshotLatency => assert REQUIRED[7] == id;
      case NoStillPresent => assert REQUIRED[8] == id;
      case NoNewFinding => assert REQUIRED[9] == id;
      case TlaTierRouting => assert REQUIRED[10] == id;
      case TlaValidation => assert REQUIRED[11] == id;
      case TlaLiveness => assert REQUIRED[12] == id;
      case PostActLogContract => assert REQUIRED[13] == id;
    }
  }

  ghost function AllGates(metrics: Metrics, specs: seq<Tla>, post: PostAct, reportedPassed: bool,
                    reportedFailed: bool): seq<Gate>
    requires |specs| == 3
  {
    [UnitGate(reportedPassed, reportedFailed)] + MetricGates(metrics) +
    [TlaGate(TlaTierRouting, specs[0]), TlaGate(TlaValidation, specs[1]), TlaGate(TlaLiveness, specs[2]),
     LogGate(post)]
  }

  lemma MetricGatesInOrder(metrics: Metrics)
    ensures |MetricGates(metrics)| == 9
    ensures forall i :: 0 <= i < 9 ==> MetricGates(metrics)[i].id == REQUIRED[i + 1]
  {
    hide Satisfies;
  }

  lemma GatesInOrder(metrics: Metrics, specs: seq<Tla>, post: PostAct, reportedPassed: bool,
                     reportedFailed: bool)
    requires |specs| == 3
    ensures var gates := AllGates(metrics, specs, post, reportedPassed, reportedFailed);
            |gates| == 14 && forall i :: 0 <= i < 14 ==> gates[i].id == REQUIRED[i]
  {
    hide LogsHold, MetricGates;
    MetricGatesInOrder(metrics);
  }

  // ---- what the gates and the report say ----

  // The metric is in the snapshot, with a value above, below or equal to the bound.
  ghost predicate Exceeds(metrics: Metrics, metric: Metric, bound: real) {
    metrics.Some? && metric in metrics.value && metrics.value[metric] > bound
  }

  ghost predicate StaysBelow(metrics: Metrics, metric: Metric, bound: real) {
    metrics.Some? && metric in metrics.value && metrics.value[metric] < bound
  }

  ghost predicate Reads(metrics: Metrics, metric: Metric, value: real) {
    metrics.Some? && metric in metrics.value && metrics.value[metric] == value
  }

  // Blocked without a number, otherwise decided by it.
  ghost predicate Judged(s: GateStatus, metrics: Metrics, metric: Metric, ok: bool) {
    && (s.Pass? <==> ok)
    && (s.Blocked? <==> metrics.None? || metric !in metrics.value)
    && !s.Skipped?
  }

  ghost predicate TlaJudged(s: GateStatus, t: Tla) {
    && (s.Blocked? <==> !t.found)
    && (s.Skipped? <==> t.found && t.result.None?)
    && (s.Pass? <==> t.found && t.result == Some(true))
  }

  // Each gate's status in terms of what the producer was given.
  ghost predicate GatesJudged(gates: seq<Gate>, metrics: Metrics, specs: seq<Tla>, post: PostAct, passed: bool,
                              failed: bool)
    requires |specs| == 3
  {
    && |gates| == 14 && (forall i :: 0 <= i < 14 ==> gates[i].id == REQUIRED[i])
    && (gates[0].status.Fail? <==> failed) && (gates[0].status.Pass? <==> passed && !failed)
    && !gates[0].status.Blocked?
    && Judged(gates[1].status, metrics, KeeperTurnSuccessRate, Exceeds(metrics, KeeperTurnSuccessRate, 0.95))
    && Judged(gates[2].status, metrics, SkippingTurnRate, Reads(metrics, SkippingTurnRate, 0.0))
    && Judged(gates[3].status, metrics, PricingMissTotal, Reads(metrics, PricingMissTotal, 0.0))
    && Judged(gates[4].status, metrics, Utf8RepairTotal, Reads(metrics, Utf8RepairTotal, 0.0))
    && Judged(gates[5].status, metrics, RecoveryTotal, Exceeds(metrics, RecoveryTotal, 0.0))
    && (gates[6].status.Pass? <==>
        Exceeds(metrics, QueueDepth, 0.0) || Exceeds(metrics, QueueWaitMs, 0.0))
    && (gates[6].status.Blocked? <==>
        metrics.None? || (QueueDepth !in metrics.value && QueueWaitMs !in metrics.value))
    && !gates[6].status.Skipped?
    && Judged(gates[7].status, metrics, LatencyP99, StaysBelow(metrics, LatencyP99, 5.0))
    && Judged(gates[8].status, metrics, StillPresent, Reads(metrics, StillPresent, 0.0))
    && Judged(gates[9].status, metrics, NewFinding, Reads(metrics, NewFinding, 0.0))
    && TlaJudged(gates[10].status, specs[0]) && TlaJudged(gates[11].status, specs[1])
    && TlaJudged(gates[12].status, specs[2])
    && (gates[13].status.Blocked? <==> post.log.None?) && (gates[13].status.Pass? <==> LogsHold(post))
    && !gates[13].status.Skipped?
  }

  lemma MetricGatesAreJudged(metrics: Metrics)
    ensures var gates := MetricGates(metrics);
            && |gates| == 9
            && Judged(gates[0].status, metrics, KeeperTurnSuccessRate, Exceeds(metrics, KeeperTurnSuccessRate, 0.95))
            && Judged(gates[1].status, metrics, SkippingTurnRate, Reads(metrics, SkippingTurnRate, 0.0))
            && Judged(gates[2].status, metrics, PricingMissTotal, Reads(metrics, PricingMissTotal, 0.0))
            && Judged(gates[3].status, metrics, Utf8RepairTotal, Reads(metrics, Utf8RepairTotal, 0.0))
            && Judged(gates[4].status, metrics, RecoveryTotal, Exceeds(metrics, RecoveryTotal, 0.0))
            && (gates[5].status.Pass? <==>
                Exceeds(metrics, QueueDepth, 0.0) || Exceeds(metrics, QueueWaitMs, 0.0))
            && (gates[5].status.Blocked? <==>
                metrics.None? || (QueueDepth !in metrics.value && QueueWaitMs !in metrics.value))
            && !gates[5].status.Skipped?
            && Judged(gates[6].status, metrics, LatencyP99, StaysBelow(metrics, LatencyP99, 5.0))
            && Judged(gates[7].status, metrics, StillPresent, Reads(metrics, StillPresent, 0.0))
            && Judged(gates[8].status, metrics, NewFinding, Reads(metrics, NewFinding, 0.0))
  {
  }

  lemma GatesAt(metrics: Metrics, specs: seq<Tla>, post: PostAct, passed: bool, failed: bool)
    requires |specs| == 3
    ensures var m, gates := MetricGates(metrics), AllGates(metrics, specs, post, passed, failed);
            && |m| == 9 && |gates| == 14 && gates[0] == UnitGate(passed, failed)
            && gates[1] == m[0] && gates[2] == m[1] && gates[3] == m[2] && gates[4] == m[3] && gates[5] == m[4]
            && gates[6] == m[5] && gates[7] == m[6] && gates[8] == m[7] && gates[9] == m[8]
            && gates[10] == TlaGate(TlaTierRouting, specs[0]) && gates[11] == TlaGate(TlaValidation, specs[1])
            && gates[12] == TlaGate(TlaLiveness, specs[2]) && gates[13] == LogGate(post)
  {
    MetricGatesInOrder(metrics);
    hide MetricGates, UnitGate, TlaGate, LogGate;
  }

  lemma OtherGatesAreJudged(t: Tla, id: GateId, post: PostAct, passed: bool, failed: bool)
    ensures var s := UnitGate(passed, failed).status;
            (s.Fail? <==> failed) && (s.Pass? <==> passed && !failed) && !s.Blocked?
    ensures TlaJudged(TlaGate(id, t).status, t)
    ensures var s := LogGate(post).status;
            (s.Blocked? <==> post.log.None?) && (s.Pass? <==> LogsHold(post)) && !s.Skipped?
  {
    hide LogContract.ContractHolds, MUST_CONTAIN, MUST_NOT_CONTAIN;
  }

  lemma GatesAreJudged(metrics: Metrics, specs: seq<Tla>, post: PostAct, passed: bool, failed: bool)
    requires |specs| == 3
    ensures GatesJudged(AllGates(metrics, specs, post, passed, failed), metrics, specs, post, passed, failed)
  {
    hide MetricGates, AllGates, UnitGate, TlaGate, LogGate, LogsHold, Judged, TlaJudged, Exceeds, StaysBelow, Reads;
    GatesInOrder(metrics, specs, post, passed, failed);
    GatesAt(metrics, specs, post, passed, failed);
    MetricGatesAreJudged(metrics);
    OtherGatesAreJudged(specs[0], TlaTierRouting, post, passed, failed);
    OtherGatesAreJudged(specs[1], TlaValidation, post, passed, failed);
    OtherGatesAreJudged(specs[2], TlaLiveness, post, passed, failed);
  }

  // The totals are the numbers of gates with each status, and the status follows.
  ghost predicate Totalled(r: Report) {
    && r.total == |r.gates|
    && r.passed == |set i | 0 <= i < |r.gates| && r.gates[i].status.Pass?|
    && r.failed == |set i | 0 <= i < |r.gates| && r.gates[i].status.Fail?|
    && r.blocked == |set i | 0 <= i < |r.gates| && r.gates[i].status.Blocked?|
    && r.skipped == |set i | 0 <= i < |r.gates| && r.gates[i].status.Skipped?|
    && (r.status.Fail? <==> exists g :: g in r.gates && g.status.Fail?)
    && (r.status.Pass? <==> forall g :: g in r.gates ==> g.status.Pass?)
    && !r.status.Skipped?
  }

  lemma ReportIsTotalled(r: Report)
    requires IsReport(r)
    ensures Totalled(r)
  {
    var gs := r.gates;
    CountsPlaces(gs, HasStatus(Pass), set i | 0 <= i < |gs| && gs[i].status.Pass?);
    CountsPlaces(gs, HasStatus(Fail), set i | 0 <= i < |gs| && gs[i].status.Fail?);
    CountsPlaces(gs, HasStatus(Blocked), set i | 0 <= i < |gs| && gs[i].status.Blocked?);
    CountsPlaces(gs, HasStatus(Skipped), set i | 0 <= i < |gs| && gs[i].status.Skipped?);
    PassingReport(r);
    CountsSome(gs, HasStatus(Fail));
    assert (exists g :: g in gs && HasStatus(Fail)(g)) <==> exists g :: g in gs && g.status.Fail?;
  }

  lemma PassingReport(r: Report)
    requires IsReport(r)
    ensures r.status == Pass <==> forall g :: g in r.gates ==> g.status == Pass
  {
    CountsSome(r.gates, HasStatus(Fail));
    CountsSome(r.gates, HasStatus(Blocked));
    CountsSome(r.gates, HasStatus(Skipped));
    if r.status == Pass {
      forall g | g in r.gates
        ensures g.status == Pass
      {
        assert !HasStatus(Fail)(g) && !HasStatus(Blocked)(g) && !HasStatus(Skipped)(g);
      }
    }
  }

  // build_pipeline_report: None when the drift guard refuses.
  method BuildPipelineReport(metrics: Metrics, specs: seq<Tla>, post: PostAct, reportedPassed: bool,
                             reportedFailed: bool)
    returns (report: Option<Report>)
    requires |specs| == 3
    // The guard never refuses, and the report is what its gates say.
    ensures report.Some? && IsReport(report.value) && EachRequiredOnce(report.value.gates)
    ensures report.value.schemaVersion == 1 && Totalled(report.value)
    ensures GatesJudged(report.value.gates, metrics, specs, post, reportedPassed, reportedFailed)
    ensures report.value.gates == AllGates(metrics, specs, post, reportedPassed, reportedFailed)
  {
    hide UnitGate, MetricGates, LogGate, EachRequiredOnce, CountIf, GatesJudged, Totalled;
    GatesAreJudged(metrics, specs, post, reportedPassed, reportedFailed);
    var tla := BuildTlaGates(specs);
    var log := BuildLogGate(post);
    var gates := [UnitGate(reportedPassed, reportedFailed)] + MetricGates(metrics) + tla + [log];
    assert gates == AllGates(metrics, specs, post, reportedPassed, reportedFailed);
    GatesInOrder(metrics, specs, post, reportedPassed, reportedFailed);
    hide AllGates;
    InOrderOnce(gates);
    EmittedIsContract(gates);
    var ok := GateIdsMatchRequired(Emitted(gates));
    if !ok {
      return None;
    }
    var passed, failed := CountIf(gates, HasStatus(Pass)), CountIf(gates, HasStatus(Fail));
    var blocked, skipped := CountIf(gates, HasStatus(Blocked)), CountIf(gates, HasStatus(Skipped));
    var status := if failed > 0 then Fail else if blocked > 0 || skipped > 0 then Blocked else Pass;
    report := Some(Report(1, status, |gates|, passed, failed, blocked, skipped, gates));
    ReportIsTotalled(report.value);
  }

  ghost predicate IsReport(r: Report) {
    && r.schemaVersion == 1
    && r.total == |r.gates|
    && r.passed == CountIf(r.gates, HasStatus(Pass))
    && r.failed == CountIf(r.gates, HasStatus(Fail))
    && r.blocked == CountIf(r.gates, HasStatus(Blocked))
    && r.skipped == CountIf(r.gates, HasStatus(Skipped))
    && r.status == (if r.failed > 0 then Fail else if r.blocked > 0 || r.skipped > 0 then Blocked else Pass)
  }

  lemma {:induction false} CountUpTo(gates: seq<Gate>, k: nat, id: GateId)
    requires k <= |gates| && |gates| <= 14 && forall i :: 0 <= i < |gates| ==> gates[i].id == REQUIRED[i]
    ensures CountIf(gates[..k], HasId(id)) == if id in REQUIRED[..k] then 1 else 0
  {
    AllRequired();
    hide REQUIRED;
    if k > 0 {
      CountUpTo(gates, k - 1, id);
      assert gates[..k][..k - 1] == gates[..k - 1];
      assert REQUIRED[..k] == REQUIRED[..k - 1] + [REQUIRED[k - 1]];
      RequiredDistinct(k - 1);
    }
  }

  lemma RequiredDistinct(k: nat)
    requires k < |REQUIRED|
    ensures REQUIRED[k] !in REQUIRED[..k]
  {
  }

  // Gates in the contract's order cover every required id once.
  lemma InOrderOnce(gates: seq<Gate>)
    requires |gates| == 14 && forall i :: 0 <= i < 14 ==> gates[i].id == REQUIRED[i]
    ensures EachRequiredOnce(gates)
  {
    AllRequired();
    assert gates[..14] == gates && REQUIRED[..14] == REQUIRED;
    forall id
      ensures CountIf(gates, HasId(id)) == 1
    {
      CountUpTo(gates, 14, id);
    }
  }
}
