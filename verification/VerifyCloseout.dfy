/** The closeout audit's own reading of a Verify pipeline report, which may be any JSON. */
module VerifyCloseout {
  import opened Lists
  import opened VerifyGates
  import LogContract

  // An entry of the report's gate list. A field that is missing or of the wrong kind is None.
  datatype Entry = NotObject | Object(name: Option<Name>, status: Option<GateStatus>)

  // A field read with as_int: the number, when it is one.
  function AsInt(field: Option<int>): int {
    match field case None => 0 case Some(n) => n
  }

  datatype Raw = Raw(schemaVersion: Option<int>, status: Option<GateStatus>, total: Option<int>, passed: Option<int>,
                     failed: Option<int>, blocked: Option<int>, skipped: Option<int>, gates: Option<seq<Entry>>)

  function Entries(raw: Raw): seq<Entry> {
    match raw.gates case None => [] case Some(es) => es
  }

  function IsNamed(): Entry -> bool {
    (e: Entry) => e.Object? && e.name.Some?
  }

  function Names(es: seq<Entry>): seq<Name> {
    if es == [] then [] else
      Names(es[..|es| - 1]) + if IsNamed()(es[|es| - 1]) then [es[|es| - 1].name.value] else []
  }

  function EntryHas(s: GateStatus): Entry -> bool {
    (e: Entry) => e.Object? && e.status == Some(s)
  }

  function NamedNotPassing(): Entry -> bool {
    (e: Entry) => IsNamed()(e) && e.status != Some(Pass)
  }

  function CountsMatch(raw: Raw): bool {
    var es := Entries(raw);
    && AsInt(raw.total) == |es|
    && AsInt(raw.passed) == CountIf(es, EntryHas(Pass))
    && AsInt(raw.failed) == CountIf(es, EntryHas(Fail))
    && AsInt(raw.blocked) == CountIf(es, EntryHas(Blocked))
    && AsInt(raw.skipped) == CountIf(es, EntryHas(Skipped))
  }

  // verify_pipeline_evidence on a report that was provided.
  function Accepts(raw: Raw): bool {
    var es := Entries(raw);
    var names := Names(es);
    var required := set id | id in REQUIRED :: Known(id);
    var found := set n | n in names;
    && AsInt(raw.schemaVersion) == 1
    && raw.status == Some(Pass)
    && es != []
    && CountsMatch(raw)
    && required - found == {}
    && found - required == {}
    && (forall n :: n in names ==> CountIf(names, IsName(n)) <= 1)
    && |names| == |REQUIRED|
    && CountIf(es, NamedNotPassing()) == 0
  }

  // No report at all passes; an explicit one is preferred to one embedded in the summary.
  function PipelinePasses(explicit: Option<Raw>, embedded: Option<Raw>): bool {
    if explicit.Some? then Accepts(explicit.value)
    else if embedded.Some? then Accepts(embedded.value)
    else true
  }

  ghost function Bears(id: GateId): Entry -> bool {
    (e: Entry) => e.Object? && e.name == Some(Known(id))
  }

  lemma {:induction false} NamesCount(es: seq<Entry>, id: GateId)
    ensures CountIf(Names(es), IsName(Known(id))) == CountIf(es, Bears(id))
    ensures |Names(es)| == CountIf(es, IsNamed())
  {
    if es != [] {
      var t, e := es[..|es| - 1], es[|es| - 1];
      NamesCount(t, id);
      if IsNamed()(e) {
        assert (Names(t) + [e.name.value])[..|Names(t)|] == Names(t);
      } else {
        assert Names(t) + [] == Names(t);
      }
    }
  }

  lemma {:induction false} NamesMembers(es: seq<Entry>)
    ensures forall n :: n in Names(es) <==> exists e :: e in es && IsNamed()(e) && e.name.value == n
  {
    if es != [] {
      var t, e := es[..|es| - 1], es[|es| - 1];
      NamesMembers(t);
      assert forall x :: x in es <==> x in t || x == e;
    }
  }

  // Every contract id is borne by exactly one object entry, and that entry passed.
  ghost predicate EachGatePassedOnce(es: seq<Entry>) {
    forall id :: CountIf(es, Bears(id)) == 1 && (forall e :: e in es && Bears(id)(e) ==> e.status == Some(Pass))
  }

  // Whatever JSON it is: an accepted report has each required gate exactly once, passing.
  lemma AcceptedHasEveryGate(raw: Raw)
    requires Accepts(raw)
    ensures EachGatePassedOnce(Entries(raw))
  {
    var es := Entries(raw);
    AllRequired();
    CountsSome(es, NamedNotPassing());
    forall id
      ensures CountIf(es, Bears(id)) == 1
    {
      NamesCount(es, id);
      CountsSome(Names(es), IsName(Known(id)));
      assert Known(id) in set n | n in Names(es) by {
        assert id in REQUIRED;
        var required := set i | i in REQUIRED :: Known(i);
        assert Known(id) in required;
      }
    }
    forall id, e | e in es && Bears(id)(e)
      ensures e.status == Some(Pass)
    {
      assert !NamedNotPassing()(e);
    }
  }

  lemma {:induction false} NoRepeatsLength(names: seq<Name>)
    requires forall n :: n in names ==> CountIf(names, IsName(n)) <= 1
    ensures |set n | n in names| == |names|
  {
    if names != [] {
      var t, n := names[..|names| - 1], names[|names| - 1];
      assert names == t + [n];
      CountsSome(t, IsName(n));
      assert IsName(n)(n);
      assert CountIf(t, IsName(n)) == 0;
      NoRepeatsLength(t);
      assert (set x | x in names) == (set x | x in t) + {n};
    }
  }

  lemma {:induction false} KnownNames(ids: seq<GateId>)
    requires forall i, j :: 0 <= i < j < |ids| ==> ids[i] != ids[j]
    ensures |set id | id in ids :: Known(id)| == |ids|
  {
    if ids != [] {
      var t, x := ids[..|ids| - 1], ids[|ids| - 1];
      KnownNames(t);
      assert ids == t + [x];
      assert (set id | id in ids :: Known(id)) == (set id | id in t :: Known(id)) + {Known(x)};
      assert Known(x) !in set id | id in t :: Known(id);
    }
  }

  // The closeout check as it counts.
  ghost predicate CountsComplete(raw: Raw) {
    var es := Entries(raw);
    && AsInt(raw.schemaVersion) == 1 && raw.status == Some(Pass) && CountsMatch(raw)
    && EachGatePassedOnce(es)
    && (forall e :: e in es && IsNamed()(e) ==> e.name.value.Known?)
  }

  // The field holds the number; one that is missing or no number reads as zero.
  ghost predicate Counts(field: Option<int>, n: nat) {
    field == Some(n) || (field.None? && n == 0)
  }

  // Entry i passes under the id, and no other entry bears it.
  ghost predicate PassesOnceAt(es: seq<Entry>, id: GateId, i: nat) {
    && i < |es| && es[i] == Object(Some(Known(id)), Some(Pass))
    && forall j :: 0 <= j < |es| && j != i && es[j].Object? ==> es[j].name != Some(Known(id))
  }

  ghost predicate PassesOnce(es: seq<Entry>, id: GateId) {
    exists i: nat :: PassesOnceAt(es, id, i)
  }

  // The closeout check, in full: the header fields, the five totals, each required gate once and passing, and no gate
  // with another id.
  ghost predicate Complete(raw: Raw) {
    var es := if raw.gates.Some? then raw.gates.value else [];
    && raw.schemaVersion == Some(1) && raw.status == Some(Pass)
    && Counts(raw.total, |es|)
    && Counts(raw.passed, |set i | 0 <= i < |es| && es[i].Object? && es[i].status == Some(Pass)|)
    && Counts(raw.failed, |set i | 0 <= i < |es| && es[i].Object? && es[i].status == Some(Fail)|)
    && Counts(raw.blocked, |set i | 0 <= i < |es| && es[i].Object? && es[i].status == Some(Blocked)|)
    && Counts(raw.skipped, |set i | 0 <= i < |es| && es[i].Object? && es[i].status == Some(Skipped)|)
    && (forall id: GateId :: PassesOnce(es, id))
    && (forall e :: e in es && e.Object? && e.name.Some? ==> e.name.value.Known?)
  }

  lemma CountsMatchSizes(raw: Raw)
    ensures CountsMatch(raw) <==>
            var es := Entries(raw);
            && Counts(raw.total, |es|)
            && Counts(raw.passed, |set i | 0 <= i < |es| && es[i].Object? && es[i].status == Some(Pass)|)
            && Counts(raw.failed, |set i | 0 <= i < |es| && es[i].Object? && es[i].status == Some(Fail)|)
            && Counts(raw.blocked, |set i | 0 <= i < |es| && es[i].Object? && es[i].status == Some(Blocked)|)
            && Counts(raw.skipped, |set i | 0 <= i < |es| && es[i].Object? && es[i].status == Some(Skipped)|)
  {
    var es := Entries(raw);
    CountsPlaces(es, EntryHas(Pass), set i | 0 <= i < |es| && es[i].Object? && es[i].status == Some(Pass));
    CountsPlaces(es, EntryHas(Fail), set i | 0 <= i < |es| && es[i].Object? && es[i].status == Some(Fail));
    CountsPlaces(es, EntryHas(Blocked), set i | 0 <= i < |es| && es[i].Object? && es[i].status == Some(Blocked));
    CountsPlaces(es, EntryHas(Skipped), set i | 0 <= i < |es| && es[i].Object? && es[i].status == Some(Skipped));
    hide CountIf, EntryHas;
  }

  lemma OnlyOne<T>(s: set<T>) returns (x: T)
    requires |s| == 1
    ensures s == {x}
  {
    x :| x in s;
    assert |s - {x}| == 0;
    assert s == {x} + (s - {x});
  }

  lemma OnlyPlacePasses(es: seq<Entry>, id: GateId, places: set<int>)
    requires forall i :: i in places <==> 0 <= i < |es| && Bears(id)(es[i])
    requires |places| == 1 && forall e :: e in es && Bears(id)(e) ==> e.status == Some(Pass)
    ensures PassesOnce(es, id)
  {
    var i := OnlyOne(places);
    assert i in places && forall j :: j in places ==> j == i;
    assert forall j :: 0 <= j < |es| && Bears(id)(es[j]) ==> j in places;
    assert PassesOnceAt(es, id, i);
  }

  lemma PassingPlaceIsOnly(es: seq<Entry>, id: GateId, places: set<int>)
    requires forall i :: i in places <==> 0 <= i < |es| && Bears(id)(es[i])
    requires PassesOnce(es, id)
    ensures |places| == 1 && forall e :: e in es && Bears(id)(e) ==> e.status == Some(Pass)
  {
    var i: nat :| PassesOnceAt(es, id, i);
    assert forall j :: j in places <==> j == i;
    assert places == {i};
  }

  // One place is counted exactly if there is one and no other.
  lemma OncePassingPlace(es: seq<Entry>, id: GateId)
    ensures CountIf(es, Bears(id)) == 1 && (forall e :: e in es && Bears(id)(e) ==> e.status == Some(Pass)) <==>
            PassesOnce(es, id)
  {
    hide CountIf, PassesOnce;
    var places := set i | 0 <= i < |es| && Bears(id)(es[i]);
    CountsPlaces(es, Bears(id), places);
    if |places| == 1 && forall e :: e in es && Bears(id)(e) ==> e.status == Some(Pass) {
      OnlyPlacePasses(es, id, places);
    }
    if PassesOnce(es, id) {
      PassingPlaceIsOnly(es, id, places);
    }
  }

  lemma GatesPassOnce(es: seq<Entry>)
    ensures EachGatePassedOnce(es) <==> forall id :: PassesOnce(es, id)
  {
    hide PassesOnce, CountIf;
    forall id
      ensures CountIf(es, Bears(id)) == 1 && (forall e :: e in es && Bears(id)(e) ==> e.status == Some(Pass)) <==>
              PassesOnce(es, id)
    {
      OncePassingPlace(es, id);
    }
  }

  lemma CompleteIsCounted(raw: Raw)
    ensures Complete(raw) <==> CountsComplete(raw)
  {
    hide CountsMatch, PassesOnce, EachGatePassedOnce, Counts;
    CountsMatchSizes(raw);
    GatesPassOnce(Entries(raw));
  }

  lemma CompleteNames(es: seq<Entry>)
    requires EachGatePassedOnce(es)
    requires forall e :: e in es && IsNamed()(e) ==> e.name.value.Known?
    ensures (set n | n in Names(es)) == (set id | id in REQUIRED :: Known(id))
    ensures forall n :: n in Names(es) ==> CountIf(Names(es), IsName(n)) <= 1
    ensures |Names(es)| == |REQUIRED|
  {
    AllRequired();
    NamesMembers(es);
    forall n
      ensures n in Names(es) <==> n.Known?
      ensures n in Names(es) ==> CountIf(Names(es), IsName(n)) <= 1
    {
      if n.Known? {
        NamesCount(es, n.id);
        CountsSome(Names(es), IsName(n));
      }
    }
    NoRepeatsLength(Names(es));
    KnownNames(REQUIRED);
    assert (set n | n in Names(es)) == (set id | id in REQUIRED :: Known(id));
  }

  lemma AcceptedIsComplete(raw: Raw)
    requires Accepts(raw)
    ensures CountsComplete(raw)
  {
    AcceptedHasEveryGate(raw);
    var es := Entries(raw);
    NamesMembers(es);
    forall e | e in es && IsNamed()(e)
      ensures e.name.value.Known?
    {
      var found := set n | n in Names(es);
      assert e.name.value in found;
    }
  }

  lemma CompleteIsAccepted(raw: Raw)
    requires CountsComplete(raw)
    ensures Accepts(raw)
  {
    hide CountsMatch;
    var es := Entries(raw);
    CompleteNames(es);
    CountsSome(es, NamedNotPassing());
    assert es != [] by { assert CountIf(es, Bears(UnitTests)) == 1; }
    forall e | e in es
      ensures !NamedNotPassing()(e)
    {
      if IsNamed()(e) {
        assert Bears(e.name.value.id)(e);
      }
    }
  }

  // The check accepts a report, whatever JSON it is, exactly when the report is complete.
  lemma AcceptsExactly(raw: Raw)
    ensures Accepts(raw) <==> Complete(raw)
    ensures Accepts(raw) <==> CountsComplete(raw)
  {
    hide Complete;
    CompleteIsCounted(raw);
    if Accepts(raw) {
      AcceptedIsComplete(raw);
    }
    if CountsComplete(raw) {
      CompleteIsAccepted(raw);
    }
  }

  // ---- producer and consumer together ----

  function AsEntry(g: Gate): Entry {
    Object(Some(Known(g.id)), Some(g.status))
  }

  function AsEntries(gates: seq<Gate>): seq<Entry> {
    if gates == [] then [] else AsEntries(gates[..|gates| - 1]) + [AsEntry(gates[|gates| - 1])]
  }

  // The producer's report as the closeout audit reads it back.
  function AsRaw(r: Report): Raw {
    Raw(Some(r.schemaVersion), Some(r.status), Some(r.total), Some(r.passed), Some(r.failed), Some(r.blocked),
        Some(r.skipped), Some(AsEntries(r.gates)))
  }

  lemma {:induction false} EntriesCount(gates: seq<Gate>, s: GateStatus, id: GateId)
    ensures |AsEntries(gates)| == |gates|
    ensures CountIf(AsEntries(gates), EntryHas(s)) == CountIf(gates, HasStatus(s))
    ensures CountIf(AsEntries(gates), Bears(id)) == CountIf(gates, HasId(id))
  {
    if gates != [] {
      var t, g := gates[..|gates| - 1], gates[|gates| - 1];
      EntriesCount(t, s, id);
      assert (AsEntries(t) + [AsEntry(g)])[..|AsEntries(t)|] == AsEntries(t);
    }
  }

  lemma {:induction false} EntriesOfGates(gates: seq<Gate>)
    ensures forall e :: e in AsEntries(gates) <==> exists g :: g in gates && e == AsEntry(g)
  {
    if gates != [] {
      var t, g := gates[..|gates| - 1], gates[|gates| - 1];
      EntriesOfGates(t);
      assert gates == t + [g];
    }
  }

  lemma ReportCountsMatch(r: Report)
    requires IsReport(r)
    ensures CountsMatch(AsRaw(r))
  {
    EntriesCount(r.gates, Pass, UnitTests);
    EntriesCount(r.gates, Fail, UnitTests);
    EntriesCount(r.gates, Blocked, UnitTests);
    EntriesCount(r.gates, Skipped, UnitTests);
  }

  // Every report the producer builds is accepted exactly when its status is PASS.
  lemma ProducedAcceptedIffPass(r: Report)
    requires IsReport(r) && EachRequiredOnce(r.gates)
    ensures forall other :: PipelinePasses(Some(AsRaw(r)), other) <==> r.status == Pass
    ensures PipelinePasses(None, Some(AsRaw(r))) <==> r.status == Pass
    ensures PipelinePasses(None, None)
  {
    AcceptsExactly(AsRaw(r));
    PassingReport(r);
    ReportCountsMatch(r);
    if r.status == Pass {
      hide CountsMatch, IsReport;
      forall id
        ensures CountIf(AsEntries(r.gates), Bears(id)) == 1
      {
        EntriesCount(r.gates, Pass, id);
      }
      EntriesOfGates(r.gates);
      EntriesCount(r.gates, Pass, UnitTests);
    }
  }

  ghost predicate TlaPassed(t: Tla) {
    t.found && t.result == Some(true)
  }

  ghost predicate MetricsPass(metrics: Metrics) {
    && Exceeds(metrics, KeeperTurnSuccessRate, 0.95) && StaysBelow(metrics, LatencyP99, 5.0)
    && Reads(metrics, SkippingTurnRate, 0.0) && Reads(metrics, PricingMissTotal, 0.0)
    && Reads(metrics, Utf8RepairTotal, 0.0)
    && Reads(metrics, StillPresent, 0.0) && Reads(metrics, NewFinding, 0.0)
    && Exceeds(metrics, RecoveryTotal, 0.0)
    && (Exceeds(metrics, QueueDepth, 0.0) || Exceeds(metrics, QueueWaitMs, 0.0))
  }

  // The evidence a passing report needs, before any gate is built.
  ghost predicate Evidenced(metrics: Metrics, specs: seq<Tla>, post: PostAct, passed: bool, failed: bool) {
    && passed && !failed
    && MetricsPass(metrics)
    && (forall t :: t in specs ==> TlaPassed(t))
    && LogsHold(post)
  }

  lemma MetricGatesPass(metrics: Metrics)
    ensures (forall g :: g in MetricGates(metrics) ==> g.status == Pass) <==> MetricsPass(metrics)
  {
    var gs := MetricGates(metrics);
    assert |gs| == 9;
    assert (forall g :: g in gs ==> g.status == Pass) <==>
           (gs[0].status == Pass && gs[1].status == Pass && gs[2].status == Pass && gs[3].status == Pass
            && gs[4].status == Pass && gs[5].status == Pass && gs[6].status == Pass && gs[7].status == Pass
            && gs[8].status == Pass);
  }

  lemma TlaGatesPass(specs: seq<Tla>)
    requires |specs| == 3
    ensures var gs := [TlaGate(TlaTierRouting, specs[0]), TlaGate(TlaValidation, specs[1]),
                       TlaGate(TlaLiveness, specs[2])];
            (forall g :: g in gs ==> g.status == Pass) <==> forall t :: t in specs ==> TlaPassed(t)
  {
    var gs := [TlaGate(TlaTierRouting, specs[0]), TlaGate(TlaValidation, specs[1]), TlaGate(TlaLiveness, specs[2])];
    assert (forall g :: g in gs ==> g.status == Pass) <==>
           (gs[0].status == Pass && gs[1].status == Pass && gs[2].status == Pass);
    assert (forall t :: t in specs ==> TlaPassed(t)) <==>
           (TlaPassed(specs[0]) && TlaPassed(specs[1]) && TlaPassed(specs[2]));
  }

  /** From the evidence to the closeout verdict: exactly what it takes for a produced report to be accepted. */
  lemma AcceptedIffEvidenced(r: Report, metrics: Metrics, specs: seq<Tla>, post: PostAct, passed: bool,
                             failed: bool)
    requires |specs| == 3 && IsReport(r) && EachRequiredOnce(r.gates)
    requires r.gates == AllGates(metrics, specs, post, passed, failed)
    ensures PipelinePasses(Some(AsRaw(r)), None) <==> Evidenced(metrics, specs, post, passed, failed)
  {
    hide PipelinePasses, MetricGates, IsReport, TlaGate, EachRequiredOnce, MUST_CONTAIN, MUST_NOT_CONTAIN,
         LogContract.ContractHolds;
    ProducedAcceptedIffPass(r);
    PassingReport(r);
    MetricGatesPass(metrics);
    TlaGatesPass(specs);
    var tla := [TlaGate(TlaTierRouting, specs[0]), TlaGate(TlaValidation, specs[1]), TlaGate(TlaLiveness, specs[2])];
    assert r.gates == [UnitGate(passed, failed)] + MetricGates(metrics) + tla + [LogGate(post)];
    assert forall g :: g in r.gates <==>
             g == UnitGate(passed, failed) || g in MetricGates(metrics) || g in tla || g == LogGate(post);
  }

  // ---- what acceptance does not say ----

  function WithEntry(raw: Raw, e: Entry): Raw {
    raw.(total := Some(AsInt(raw.total) + 1),
         passed := Some(AsInt(raw.passed) + if EntryHas(Pass)(e) then 1 else 0),
         failed := Some(AsInt(raw.failed) + if EntryHas(Fail)(e) then 1 else 0),
         blocked := Some(AsInt(raw.blocked) + if EntryHas(Blocked)(e) then 1 else 0),
         skipped := Some(AsInt(raw.skipped) + if EntryHas(Skipped)(e) then 1 else 0),
         gates := Some(Entries(raw) + [e]))
  }

  // An entry without a string id is not judged at all, whatever its status: counted in the totals, it
  // changes nothing. So an accepted report can hold a failing gate.
  lemma NamelessEntryIgnored(raw: Raw, e: Entry)
    requires !IsNamed()(e)
    ensures Accepts(WithEntry(raw, e)) <==> Accepts(raw)
  {
    hide Complete, Accepts;
    AcceptsExactly(raw);
    AcceptsExactly(WithEntry(raw, e));
    var es := Entries(raw);
    assert (es + [e])[..|es|] == es;
    assert forall x :: x in es + [e] <==> x in es || x == e;
    forall id
      ensures CountIf(es + [e], Bears(id)) == CountIf(es, Bears(id))
    {
      assert !Bears(id)(e);
    }
  }

  // When an accepted report means that every entry passed: exactly when it has fourteen entries or the
  // rest passed too; with fourteen, all of them are required gates.
  lemma AcceptedTotalDecides(raw: Raw)
    requires Accepts(raw)
    ensures AsInt(raw.total) >= 14
    ensures AsInt(raw.total) == 14 <==> forall e :: e in Entries(raw) ==> IsNamed()(e)
    ensures AsInt(raw.passed) == AsInt(raw.total) <==> forall e :: e in Entries(raw) ==> EntryHas(Pass)(e)
    ensures AsInt(raw.total) == 14 ==> AsInt(raw.passed) == 14
  {
    var es := Entries(raw);
    AllRequired();
    NamesCount(es, UnitTests);
    CountIfAll(es, IsNamed());
    CountIfAll(es, EntryHas(Pass));
    CountsSome(es, NamedNotPassing());
    if AsInt(raw.total) == 14 {
      forall e | e in es
        ensures EntryHas(Pass)(e)
      {
        assert !NamedNotPassing()(e);
      }
    }
  }

  // ---- an accepted report with a failing entry ----

  const PASSING: Report :=
    Report(1, Pass, 14, 14, 0, 0, 0, seq(14, i requires 0 <= i < 14 => Gate(REQUIRED[i], Pass)))

  const NAMELESS_FAILURE := Object(None, Some(Fail))

  lemma PassingIsReport()
    ensures IsReport(PASSING) && EachRequiredOnce(PASSING.gates)
  {
    var gates := PASSING.gates;
    CountIfAll(gates, HasStatus(Pass));
    CountsSome(gates, HasStatus(Fail));
    CountsSome(gates, HasStatus(Blocked));
    CountsSome(gates, HasStatus(Skipped));
    InOrderOnce(gates);
  }

  // All fourteen gates pass, one more entry fails and says so in the totals, and the report is accepted.
  lemma FailingEntryAccepted()
    ensures var raw := WithEntry(AsRaw(PASSING), NAMELESS_FAILURE);
            && Accepts(raw)
            && NAMELESS_FAILURE in Entries(raw) && raw.failed == Some(1) && raw.total == Some(15)
  {
    hide IsReport, EachRequiredOnce, Accepts;
    PassingIsReport();
    ProducedAcceptedIffPass(PASSING);
    NamelessEntryIgnored(AsRaw(PASSING), NAMELESS_FAILURE);
    var es := Entries(AsRaw(PASSING));
    assert (es + [NAMELESS_FAILURE])[|es|] == NAMELESS_FAILURE;
  }
}
