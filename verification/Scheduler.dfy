/** The GOAL LOOP phase scheduler: one tick over the persisted phase table. Times are whole seconds. */
module Scheduler {
  import opened Lists

  datatype Phase = Observe | Orient | Decide | Act | Verify

  const PHASE_ORDER: seq<Phase> := [Observe, Orient, Decide, Act, Verify]

  datatype PhaseConfig = PhaseConfig(cadence: int, hasCommand: bool)

  type Configs = map<Phase, PhaseConfig>

  // phase_configs supplies every phase and refuses a cadence that is not positive.
  predicate Accepted(cfg: Configs) {
    forall p: Phase :: p in cfg && cfg[p].cadence > 0
  }

  datatype PhaseState = PhaseState(
    cadence: int,
    lastStarted: Option<int>,
    lastCompleted: Option<int>,
    lastStatus: string,
    nextDueAt: int,
    lateness: int,
    missedDeadline: bool,
    runsTotal: nat,
    consecutiveFailures: nat)

  datatype Due = Due(phase: Phase, reason: string, nextDueAt: int, lateness: int)

  datatype Execution = Execution(status: string, started: int, completed: int, reason: string)

  datatype Event = Event(phase: Phase, reason: string, dryRun: bool, scheduledAt: int, lateness: int,
                         execution: Option<Execution>)

  datatype State = State(
    phases: map<Phase, PhaseState>, events: seq<Event>, iteration: nat, due: seq<Due>, overall: string)

  const EMPTY := State(map[], [], 0, [], "unknown")

  // What running a phase's command yields: its final status and its duration in whole seconds.
  datatype Outcome = Outcome(status: string, duration: nat)

  datatype Tick = Tick(now: int, dryRun: bool, outcome: Phase -> Outcome)

  const REENTER := "verify_failed_reenter_observe"

  predicate Fails(status: string) {
    status == "FAIL" || status == "ERROR"
  }

  function Max0(x: int): int {
    if x > 0 then x else 0
  }

  function EmptyPhase(cadence: int, now: int): PhaseState {
    PhaseState(cadence, None, None, "NEVER_RUN", now, 0, false, 0, 0)
  }

  function Normalized(phases: map<Phase, PhaseState>, cfg: Configs, now: int): map<Phase, PhaseState>
    requires Accepted(cfg)
  {
    map p | p in cfg ::
      if p in phases then phases[p].(cadence := cfg[p].cadence) else EmptyPhase(cfg[p].cadence, now)
  }

  function DueAt(s: PhaseState, cadence: int, now: int): int {
    if s.lastCompleted.None? then now else s.lastCompleted.value + cadence
  }

  predicate VerifyFailureRequiresObserve(phases: map<Phase, PhaseState>) {
    && Verify in phases
    && Fails(phases[Verify].lastStatus)
    && phases[Verify].lastCompleted.Some?
    && (Observe !in phases || phases[Observe].lastStarted.None? ||
        phases[Observe].lastStarted.value <= phases[Verify].lastCompleted.value)
  }

  predicate Complete(phases: map<Phase, PhaseState>) {
    forall p: Phase :: p in phases
  }

  // Whether phase p is due now, and why.
  function DueFor(phases: map<Phase, PhaseState>, cfg: Configs, p: Phase, now: int): Option<Due>
    requires Accepted(cfg) && Complete(phases)
  {
    var dueAt := DueAt(phases[p], cfg[p].cadence, now);
    var lateness := Max0(now - dueAt);
    if p == Observe && VerifyFailureRequiresObserve(phases) then Some(Due(p, REENTER, dueAt, lateness))
    else if phases[p].lastCompleted.None? then Some(Due(p, "never_run", dueAt, lateness))
    else if now >= dueAt then
      Some(Due(p, if lateness > 0 then "missed_deadline" else "cadence_due", dueAt, lateness))
    else None
  }

  function SelectUpTo(phases: map<Phase, PhaseState>, cfg: Configs, now: int, k: nat): (r: seq<Due>)
    requires Accepted(cfg) && Complete(phases) && k <= |PHASE_ORDER|
  {
    if k == 0 then [] else
      SelectUpTo(phases, cfg, now, k - 1) +
      match DueFor(phases, cfg, PHASE_ORDER[k - 1], now) case None => [] case Some(d) => [d]
  }

  function SelectDue(phases: map<Phase, PhaseState>, cfg: Configs, now: int): seq<Due>
    requires Accepted(cfg) && Complete(phases)
  {
    SelectUpTo(phases, cfg, now, |PHASE_ORDER|)
  }

  // Every execution starts at the tick's own time; without a command it ends there too.
  function RunPhase(cfg: Configs, d: Due, t: Tick): Execution
    requires Accepted(cfg)
  {
    if !cfg[d.phase].hasCommand then Execution("ERROR", t.now, t.now, d.reason)
    else
      var o := t.outcome(d.phase);
      Execution(o.status, t.now, t.now + o.duration, d.reason)
  }

  function Executed(cfg: Configs, d: Due, t: Tick): Option<Execution>
    requires Accepted(cfg)
  {
    if t.dryRun then None else Some(RunPhase(cfg, d, t))
  }

  function Updated(s: PhaseState, cadence: int, d: Due, x: Option<Execution>): PhaseState {
    var planned := s.(nextDueAt := d.nextDueAt, lateness := d.lateness,
                      missedDeadline := d.reason == "missed_deadline");
    match x
    case None => planned
    case Some(e) =>
      planned.(
        lastStarted := Some(e.started),
        lastCompleted := Some(e.completed),
        lastStatus := e.status,
        runsTotal := s.runsTotal + 1,
        consecutiveFailures := if Fails(e.status) then s.consecutiveFailures + 1 else 0,
        nextDueAt := e.completed + cadence)
  }

  // What a row is after its phase was due. A plan moves only the due time, the lateness and the mark; an execution also
  // enters its times and status, counts the run, and counts on or resets the failures.
  ghost predicate Booked(before: PhaseState, after: PhaseState, cadence: int, d: Due, x: Option<Execution>) {
    && after.cadence == before.cadence && after.lateness == d.lateness
    && (after.missedDeadline <==> d.reason == "missed_deadline")
    && (x.None? ==>
          && after.nextDueAt == d.nextDueAt && after.lastStatus == before.lastStatus
          && after.lastStarted == before.lastStarted && after.lastCompleted == before.lastCompleted
          && after.runsTotal == before.runsTotal && after.consecutiveFailures == before.consecutiveFailures)
    && (x.Some? ==>
          && after.nextDueAt == x.value.completed + cadence && after.lastStatus == x.value.status
          && after.lastStarted == Some(x.value.started) && after.lastCompleted == Some(x.value.completed)
          && after.runsTotal == before.runsTotal + 1
          && after.consecutiveFailures ==
             if x.value.status in {"FAIL", "ERROR"} then before.consecutiveFailures + 1 else 0)
  }

  lemma UpdatedIsBooked(s: PhaseState, cadence: int, d: Due, x: Option<Execution>)
    ensures Booked(s, Updated(s, cadence, d, x), cadence, d, x)
  {
  }

  function EventOf(cfg: Configs, d: Due, t: Tick): Event
    requires Accepted(cfg)
  {
    Event(d.phase, d.reason, t.dryRun, t.now, d.lateness, Executed(cfg, d, t))
  }

  function EventsOf(cfg: Configs, due: seq<Due>, t: Tick): seq<Event>
    requires Accepted(cfg)
  {
    seq(|due|, i requires 0 <= i < |due| => EventOf(cfg, due[i], t))
  }

  /** One event per due phase, in order. In a dry tick there is no execution; in a live one it starts at the tick's
      time, and without a command it is an error that ends there. */
  lemma EventsSay(cfg: Configs, due: seq<Due>, t: Tick)
    requires Accepted(cfg)
    ensures |EventsOf(cfg, due, t)| == |due|
    ensures forall i :: 0 <= i < |due| ==>
              var e, d := EventsOf(cfg, due, t)[i], due[i];
              && e.phase == d.phase && e.reason == d.reason && e.lateness == d.lateness
              && e.dryRun == t.dryRun && e.scheduledAt == t.now && (e.execution.None? <==> t.dryRun)
              && (e.execution.Some? ==>
                    var x, o := e.execution.value, t.outcome(d.phase);
                    && x.started == t.now && x.reason == d.reason
                    && x.status == (if cfg[d.phase].hasCommand then o.status else "ERROR")
                    && x.completed == t.now + if cfg[d.phase].hasCommand then o.duration else 0)
  {
  }

  function Last200(es: seq<Event>): seq<Event> {
    if |es| <= 200 then es else es[|es| - 200..]
  }

  // The phase table after the tick, phase by phase, all decisions taken on the table before it.
  function PhasesAfter(n: map<Phase, PhaseState>, cfg: Configs, t: Tick): map<Phase, PhaseState>
    requires Accepted(cfg) && Complete(n)
  {
    map p | p in n ::
      match DueFor(n, cfg, p, t.now)
      case None => n[p]
      case Some(d) => Updated(n[p], cfg[p].cadence, d, Executed(cfg, d, t))
  }

  function OverallStatus(phases: map<Phase, PhaseState>): string {
    if exists p :: p in phases && Fails(phases[p].lastStatus) then "critical"
    else if exists p :: p in phases && phases[p].missedDeadline then "warning"
    else if exists p :: p in phases && phases[p].lastStatus == "NEVER_RUN" then "unknown"
    else "ok"
  }

  function AfterTick(s: State, cfg: Configs, t: Tick): State
    requires Accepted(cfg)
  {
    var n := Normalized(s.phases, cfg, t.now);
    var due := SelectDue(n, cfg, t.now);
    var after := PhasesAfter(n, cfg, t);
    State(after, Last200(s.events + EventsOf(cfg, due, t)), s.iteration + 1, due, OverallStatus(after))
  }

  // The shortest wait among the stored due times of the first k phases.
  function ShortestWait(phases: map<Phase, PhaseState>, now: int, k: nat): Option<int>
    requires k <= |PHASE_ORDER|
  {
    if k == 0 then None else
      var before, p := ShortestWait(phases, now, k - 1), PHASE_ORDER[k - 1];
      if p !in phases then before else
        var wait := Max0(phases[p].nextDueAt - now);
        if before.Some? && before.value <= wait then before else Some(wait)
  }

  // How long the loop sleeps after a tick.
  function SecondsUntilNextDue(phases: map<Phase, PhaseState>, now: int): int {
    if VerifyFailureRequiresObserve(phases) then 1 else
      match ShortestWait(phases, now, |PHASE_ORDER|)
      case None => 5
      case Some(wait) => if wait > 1 then wait else 1
  }

  // ---- the selected phases ----

  lemma AllPhasesOrdered()
    ensures PHASE_ORDER[..|PHASE_ORDER|] == PHASE_ORDER
    ensures forall p: Phase :: p in PHASE_ORDER
  {
    forall p: Phase
      ensures p in PHASE_ORDER
    {
      match p
      case Observe => assert PHASE_ORDER[0] == p;
      case Orient => assert PHASE_ORDER[1] == p;
      case Decide => assert PHASE_ORDER[2] == p;
      case Act => assert PHASE_ORDER[3] == p;
      case Verify => assert PHASE_ORDER[4] == p;
    }
  }

  /** The overall status of a table: a failure outranks a missed deadline, which outranks a phase that never ran. */
  lemma OverallMeans(phases: map<Phase, PhaseState>)
    requires Complete(phases)
    ensures var overall := OverallStatus(phases);
            var failed := exists p: Phase :: phases[p].lastStatus in {"FAIL", "ERROR"};
            var missed := exists p: Phase :: phases[p].missedDeadline;
            var unrun := exists p: Phase :: phases[p].lastStatus == "NEVER_RUN";
            && (overall == "critical" <==> failed)
            && (overall == "warning" <==> !failed && missed)
            && (overall == "unknown" <==> !failed && !missed && unrun)
            && (overall == "ok" <==> !failed && !missed && !unrun)
  {
    assert "critical"[0] == 'c' && "warning"[0] == 'w' && "unknown"[0] == 'u' && "ok"[0] == 'o';
    hide Complete;
  }

  /** Why a phase is selected, and what is recorded of when it was due. */
  lemma ReasonsMean(phases: map<Phase, PhaseState>, cfg: Configs, p: Phase, now: int)
    requires Accepted(cfg) && Complete(phases) && DueFor(phases, cfg, p, now).Some?
    ensures var d, done := DueFor(phases, cfg, p, now).value, phases[p].lastCompleted;
            var forced := p == Observe && VerifyFailureRequiresObserve(phases);
            && d.phase == p
            && (d.reason == "verify_failed_reenter_observe" <==> forced)
            && (d.reason == "never_run" <==> !forced && done.None?)
            && (d.reason == "missed_deadline" <==> !forced && done.Some? && now > done.value + cfg[p].cadence)
            && (d.reason == "cadence_due" <==> !forced && done.Some? && now == done.value + cfg[p].cadence)
            && (done.None? ==> d.nextDueAt == now && d.lateness == 0)
            && (done.Some? ==> d.nextDueAt == done.value + cfg[p].cadence)
            && (now >= d.nextDueAt ==> d.lateness == now - d.nextDueAt) && (now < d.nextDueAt ==> d.lateness == 0)
  {
    hide VerifyFailureRequiresObserve;
    assert "never_run"[0] == 'n' && "missed_deadline"[0] == 'm' && "cadence_due"[0] == 'c' && REENTER[0] == 'v';
  }

  lemma {:induction false} SelectedAreDue(phases: map<Phase, PhaseState>, cfg: Configs, now: int, k: nat)
    requires Accepted(cfg) && Complete(phases) && k <= |PHASE_ORDER|
    ensures forall d :: d in SelectUpTo(phases, cfg, now, k) <==>
              d.phase in PHASE_ORDER[..k] && DueFor(phases, cfg, d.phase, now) == Some(d)
    ensures forall i, j :: 0 <= i < j < |SelectUpTo(phases, cfg, now, k)| ==>
              SelectUpTo(phases, cfg, now, k)[i].phase != SelectUpTo(phases, cfg, now, k)[j].phase
  {
    if k > 0 {
      SelectedAreDue(phases, cfg, now, k - 1);
      var p := PHASE_ORDER[k - 1];
      assert PHASE_ORDER[..k] == PHASE_ORDER[..k - 1] + [p];
      assert p !in PHASE_ORDER[..k - 1];
      var before := SelectUpTo(phases, cfg, now, k - 1);
      assert forall i :: 0 <= i < |before| ==> before[i] in before;
    }
  }

  // A phase is selected exactly when it is due, and at most once.
  lemma Selected(phases: map<Phase, PhaseState>, cfg: Configs, now: int)
    requires Accepted(cfg) && Complete(phases)
    ensures forall d :: d in SelectDue(phases, cfg, now) <==> DueFor(phases, cfg, d.phase, now) == Some(d)
    ensures forall i, j :: 0 <= i < j < |SelectDue(phases, cfg, now)| ==>
              SelectDue(phases, cfg, now)[i].phase != SelectDue(phases, cfg, now)[j].phase
  {
    SelectedAreDue(phases, cfg, now, |PHASE_ORDER|);
    AllPhasesOrdered();
  }

  /** The scheduler's state file between ticks. */
  class StateFile {
    var phases: map<Phase, PhaseState>
    var events: seq<Event>
    var iteration: nat
    var due: seq<Due>
    var overall: string

    constructor ()
      ensures Value() == EMPTY
    {
      phases, events, iteration, due, overall := map[], [], 0, [], "unknown";
    }

    function Value(): State
      reads this
    {
      State(phases, events, iteration, due, overall)
    }

    // normalize_state: one loop over the configured phases.
    method NormalizeState(cfg: Configs, now: int)
      requires Accepted(cfg)
      modifies this`phases
      ensures phases == Normalized(old(phases), cfg, now) && Complete(phases)
      ensures forall p :: p in old(phases) ==> phases[p] == old(phases)[p].(cadence := cfg[p].cadence)
      ensures forall p :: p !in old(phases) ==>
                phases[p] == PhaseState(cfg[p].cadence, None, None, "NEVER_RUN", now, 0, false, 0, 0)
    {
      var merged: map<Phase, PhaseState> := map[];
      for k := 0 to |PHASE_ORDER|
        invariant forall p :: p in merged <==> p in PHASE_ORDER[..k]
        invariant forall p :: p in merged ==> merged[p] == Normalized(phases, cfg, now)[p]
      {
        var p := PHASE_ORDER[k];
        var existing := if p in phases then phases[p] else EmptyPhase(cfg[p].cadence, now);
        assert PHASE_ORDER[..k + 1] == PHASE_ORDER[..k] + [p];
        merged := merged[p := existing.(cadence := cfg[p].cadence)];
      }
      AllPhasesOrdered();
      phases := merged;
    }

    method SelectDuePhases(cfg: Configs, now: int) returns (selected: seq<Due>)
      requires Accepted(cfg) && Complete(phases)
      ensures selected == SelectDue(phases, cfg, now)
    {
      var reenterObserve := VerifyFailureRequiresObserve(phases);
      selected := [];
      for k := 0 to |PHASE_ORDER|
        invariant selected == SelectUpTo(phases, cfg, now, k)
      {
        var p := PHASE_ORDER[k];
        var s := phases[p];
        var dueAt := DueAt(s, cfg[p].cadence, now);
        var lateness := Max0(now - dueAt);
        var reason: Option<string> := None;
        if p == Observe && reenterObserve {
          reason := Some(REENTER);
        } else if s.lastCompleted.None? {
          reason := Some("never_run");
        } else if now >= dueAt {
          reason := Some(if lateness > 0 then "missed_deadline" else "cadence_due");
        }
        if reason.Some? {
          selected := selected + [Due(p, reason.value, dueAt, lateness)];
        }
      }
    }

    method UpdatePhaseState(cfg: Configs, d: Due, x: Option<Execution>)
      requires Accepted(cfg) && Complete(phases)
      modifies this`phases
      ensures phases == old(phases)[d.phase := Updated(old(phases)[d.phase], cfg[d.phase].cadence, d, x)]
      ensures Booked(old(phases)[d.phase], phases[d.phase], cfg[d.phase].cadence, d, x)
    {
      var s := phases[d.phase];
      s := s.(nextDueAt := d.nextDueAt, lateness := d.lateness, missedDeadline := d.reason == "missed_deadline");
      if x.Some? {
        var e := x.value;
        s := s.(lastStarted := Some(e.started), lastCompleted := Some(e.completed), lastStatus := e.status);
        s := s.(runsTotal := s.runsTotal + 1);
        s := s.(consecutiveFailures := if Fails(e.status) then s.consecutiveFailures + 1 else 0);
        s := s.(nextDueAt := e.completed + cfg[d.phase].cadence);
      }
      phases := phases[d.phase := s];
    }

    // scheduler_tick: due phases are chosen once, then run and recorded one after the other.
    method SchedulerTick(cfg: Configs, t: Tick)
      requires Accepted(cfg)
      modifies this
      ensures Value() == AfterTick(old(Value()), cfg, t)
    {
      hide SelectDue, DueFor, Updated, Executed, Normalized, PhasesAfter, EventOf;
      NormalizeState(cfg, t.now);
      iteration := iteration + 1;
      due := SelectDuePhases(cfg, t.now);
      RunDue(cfg, t);
      events := Last200(events);
      overall := OverallStatus(phases);
    }

    method RunDue(cfg: Configs, t: Tick)
      requires Accepted(cfg) && Complete(phases) && due == SelectDue(phases, cfg, t.now)
      modifies this`phases, this`events
      ensures phases == PhasesAfter(old(phases), cfg, t)
      ensures events == old(events) + EventsOf(cfg, due, t)
    {
      hide SelectDue, DueFor, Updated, PhasesAfter, Recorded, RunPhase;
      ghost var n := phases;
      Selected(n, cfg, t.now);
      RecordNone(n, cfg, t);
      for i := 0 to |due|
        invariant Complete(phases)
        invariant events == old(events) + EventsOf(cfg, due, t)[..i]
        invariant Recorded(n, phases, cfg, t, due[..i])
      {
        var x := if t.dryRun then None else Some(RunPhase(cfg, due[i], t));
        assert due[..i + 1] == due[..i] + [due[i]];
        ghost var m := phases;
        UpdatePhaseState(cfg, due[i], x);
        RecordOne(n, m, cfg, t, due[..i], due[i]);
        events := events + [EventOf(cfg, due[i], t)];
      }
      assert due[..|due|] == due;
      TablesAgree(n, phases, cfg, t, due);
    }
  }

  // m is n with the phases of `due` updated and the others untouched.
  ghost predicate Recorded(n: map<Phase, PhaseState>, m: map<Phase, PhaseState>, cfg: Configs, t: Tick, due: seq<Due>)
    requires Accepted(cfg) && Complete(n) && Complete(m)
  {
    && (forall d :: d in due ==>
          m[d.phase] == Updated(n[d.phase], cfg[d.phase].cadence, d, Executed(cfg, d, t)))
    && (forall p :: (forall d :: d in due ==> d.phase != p) ==> m[p] == n[p])
  }

  lemma RecordNone(n: map<Phase, PhaseState>, cfg: Configs, t: Tick)
    requires Accepted(cfg) && Complete(n)
    ensures Recorded(n, n, cfg, t, [])
  {
  }

  lemma RecordOne(n: map<Phase, PhaseState>, m: map<Phase, PhaseState>, cfg: Configs, t: Tick, ds: seq<Due>, d: Due)
    requires Accepted(cfg) && Complete(n) && Complete(m) && Recorded(n, m, cfg, t, ds)
    requires forall i :: 0 <= i < |ds| ==> ds[i].phase != d.phase
    ensures Recorded(n, m[d.phase := Updated(m[d.phase], cfg[d.phase].cadence, d, Executed(cfg, d, t))], cfg, t,
                     ds + [d])
  {
    hide Updated, Executed;
  }

  lemma DueForPhase(n: map<Phase, PhaseState>, cfg: Configs, p: Phase, now: int)
    requires Accepted(cfg) && Complete(n)
    ensures DueFor(n, cfg, p, now).Some? ==> DueFor(n, cfg, p, now).value.phase == p
  {
  }

  lemma TablesAgree(n: map<Phase, PhaseState>, m: map<Phase, PhaseState>, cfg: Configs, t: Tick, due: seq<Due>)
    requires Accepted(cfg) && Complete(n) && Complete(m) && due == SelectDue(n, cfg, t.now)
    requires Recorded(n, m, cfg, t, due)
    ensures m == PhasesAfter(n, cfg, t)
  {
    hide SelectDue, DueFor, Updated, Executed;
    Selected(n, cfg, t.now);
    forall p: Phase
      ensures m[p] == PhasesAfter(n, cfg, t)[p]
    {
      DueForPhase(n, cfg, p, t.now);
      match DueFor(n, cfg, p, t.now)
      case None =>
      case Some(d) =>
        assert d in due;
    }
  }

  lemma {:induction false} ShortestWaitIsLeast(phases: map<Phase, PhaseState>, now: int, k: nat)
    requires Complete(phases) && 1 <= k <= |PHASE_ORDER|
    ensures var w := ShortestWait(phases, now, k);
            && w.Some?
            && (forall p :: p in PHASE_ORDER[..k] ==> w.value <= Max0(phases[p].nextDueAt - now))
            && (exists p :: p in PHASE_ORDER[..k] && w.value == Max0(phases[p].nextDueAt - now))
  {
    var p := PHASE_ORDER[k - 1];
    assert PHASE_ORDER[..k] == PHASE_ORDER[..k - 1] + [p];
    if k > 1 {
      ShortestWaitIsLeast(phases, now, k - 1);
    }
  }

  // The sleep ends at the earliest stored due time, but lasts at least a second.
  lemma SleepsToEarliest(phases: map<Phase, PhaseState>, now: int, at: int)
    requires Complete(phases) && at > now
    ensures at >= now + SecondsUntilNextDue(phases, now) <==>
            VerifyFailureRequiresObserve(phases) || exists p: Phase :: phases[p].nextDueAt <= at
  {
    hide VerifyFailureRequiresObserve, ShortestWait;
    AllPhasesOrdered();
    ShortestWaitIsLeast(phases, now, |PHASE_ORDER|);
    forall p: Phase | phases[p].nextDueAt <= at
      ensures ShortestWait(phases, now, |PHASE_ORDER|).value <= at - now
    {
      assert ShortestWait(phases, now, |PHASE_ORDER|).value <= Max0(phases[p].nextDueAt - now);
    }
  }
}
