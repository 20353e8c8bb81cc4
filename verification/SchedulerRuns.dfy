/** Whole runs of the scheduler: any sequence of live and dry ticks from the empty state file. */
module SchedulerRuns {
  import opened Lists
  import opened Scheduler

  ghost function Run(cfg: Configs, ts: seq<Tick>): State
    requires Accepted(cfg)
  {
    if ts == [] then EMPTY else AfterTick(Run(cfg, ts[..|ts| - 1]), cfg, ts[|ts| - 1])
  }

  // The phase table a tick at time `now` starts from.
  ghost function Table(cfg: Configs, ts: seq<Tick>, now: int): (n: map<Phase, PhaseState>)
    requires Accepted(cfg)
    ensures Complete(n)
  {
    Normalized(Run(cfg, ts).phases, cfg, now)
  }

  // The execution of p in a tick that starts from table n, if there is one.
  ghost function RanIn(n: map<Phase, PhaseState>, cfg: Configs, t: Tick, p: Phase): Option<Execution>
    requires Accepted(cfg) && Complete(n)
  {
    match DueFor(n, cfg, p, t.now)
    case None => None
    case Some(d) => Executed(cfg, d, t)
  }

  // The execution of p in tick t after the ticks ts, if there is one.
  ghost function Ran(cfg: Configs, ts: seq<Tick>, t: Tick, p: Phase): Option<Execution>
    requires Accepted(cfg)
  {
    RanIn(Table(cfg, ts, t.now), cfg, t, p)
  }

  ghost function Listed(x: Option<Execution>): seq<Execution> {
    if x.Some? then [x.value] else []
  }

  // Every execution of p in the run, in order.
  ghost function History(cfg: Configs, ts: seq<Tick>, p: Phase): seq<Execution>
    requires Accepted(cfg)
  {
    if ts == [] then [] else
      History(cfg, ts[..|ts| - 1], p) + Listed(Ran(cfg, ts[..|ts| - 1], ts[|ts| - 1], p))
  }

  ghost function AllEvents(cfg: Configs, ts: seq<Tick>): seq<Event>
    requires Accepted(cfg)
  {
    if ts == [] then [] else
      var before, t := ts[..|ts| - 1], ts[|ts| - 1];
      AllEvents(cfg, before) + EventsOf(cfg, SelectDue(Table(cfg, before, t.now), cfg, t.now), t)
  }

  ghost function FailingTail(h: seq<Execution>): nat {
    if h == [] || !Fails(h[|h| - 1].status) then 0 else 1 + FailingTail(h[..|h| - 1])
  }

  // The longest failing suffix: everything in it failed, and what precedes it did not.
  lemma {:induction false} FailingTailIsLongest(h: seq<Execution>)
    ensures FailingTail(h) <= |h|
    ensures forall i :: |h| - FailingTail(h) <= i < |h| ==> Fails(h[i].status)
    ensures FailingTail(h) < |h| ==> !Fails(h[|h| - 1 - FailingTail(h)].status)
  {
    if h != [] && Fails(h[|h| - 1].status) {
      FailingTailIsLongest(h[..|h| - 1]);
    }
  }

  // The table row of p says of p's history exactly what it should.
  ghost predicate RowMatches(s: PhaseState, h: seq<Execution>, cadence: int) {
    && s.cadence == cadence
    && s.runsTotal == |h|
    && s.consecutiveFailures == FailingTail(h)
    && (h == [] ==> s.lastStarted == None && s.lastCompleted == None && s.lastStatus == "NEVER_RUN")
    && (h != [] ==>
          var e := h[|h| - 1];
          && s.lastStarted == Some(e.started) && s.lastCompleted == Some(e.completed) && s.lastStatus == e.status
          && s.nextDueAt == e.completed + cadence)
  }

  lemma RowAfterUpdate(s: PhaseState, h: seq<Execution>, cadence: int, d: Due, x: Option<Execution>, now: int)
    requires RowMatches(s, h, cadence) && d.nextDueAt == DueAt(s, cadence, now)
    ensures RowMatches(Updated(s, cadence, d, x), h + Listed(x), cadence)
  {
    if x.Some? {
      assert (h + [x.value])[..|h|] == h;
    } else {
      assert h + [] == h;
    }
  }

  lemma CadencesStored(n: map<Phase, PhaseState>, cfg: Configs, t: Tick, now: int)
    requires Accepted(cfg) && Complete(n)
    requires forall p: Phase :: n[p].cadence == cfg[p].cadence
    ensures Normalized(PhasesAfter(n, cfg, t), cfg, now) == PhasesAfter(n, cfg, t)
  {
    hide DueFor, Executed;
    var m := PhasesAfter(n, cfg, t);
    forall p: Phase
      ensures m[p].cadence == cfg[p].cadence
    {
    }
  }

  // After at least one tick the next tick starts from the stored table as it is.
  lemma TableIsStored(cfg: Configs, ts: seq<Tick>, now: int)
    requires Accepted(cfg) && ts != []
    ensures Table(cfg, ts, now) == Run(cfg, ts).phases
    ensures Table(cfg, ts, now) == PhasesAfter(Table(cfg, ts[..|ts| - 1], ts[|ts| - 1].now), cfg, ts[|ts| - 1])
  {
    hide PhasesAfter;
    CadencesStored(Table(cfg, ts[..|ts| - 1], ts[|ts| - 1].now), cfg, ts[|ts| - 1], now);
  }

  /** The stored iteration is the number of ticks there have been. */
  lemma {:induction false} IterationCountsTicks(cfg: Configs, ts: seq<Tick>)
    requires Accepted(cfg)
    ensures Run(cfg, ts).iteration == |ts|
  {
    if ts != [] {
      IterationCountsTicks(cfg, ts[..|ts| - 1]);
    }
  }

  lemma RowAfterTick(n: map<Phase, PhaseState>, cfg: Configs, t: Tick, p: Phase, h: seq<Execution>)
    requires Accepted(cfg) && Complete(n) && RowMatches(n[p], h, cfg[p].cadence)
    ensures RowMatches(PhasesAfter(n, cfg, t)[p], h + Listed(RanIn(n, cfg, t, p)), cfg[p].cadence)
  {
    hide RowMatches, Executed, Updated;
    match DueFor(n, cfg, p, t.now)
    case None => assert h + [] == h;
    case Some(d) => RowAfterUpdate(n[p], h, cfg[p].cadence, d, Executed(cfg, d, t), t.now);
  }

  // In every reachable state, whatever the mix of live and dry ticks and however the clock moves,
  // each row is the bookkeeping of its phase's whole history.
  lemma {:induction false} RowsMatchHistory(cfg: Configs, ts: seq<Tick>, p: Phase, now: int)
    requires Accepted(cfg)
    ensures RowMatches(Table(cfg, ts, now)[p], History(cfg, ts, p), cfg[p].cadence)
  {
    if ts != [] {
      hide Table, RowMatches, PhasesAfter, RanIn;
      var before, t := ts[..|ts| - 1], ts[|ts| - 1];
      TableIsStored(cfg, ts, now);
      RowsMatchHistory(cfg, before, p, t.now);
      RowAfterTick(Table(cfg, before, t.now), cfg, t, p, History(cfg, before, p));
    }
  }

  lemma Last200Absorbs(a: seq<Event>, b: seq<Event>)
    ensures Last200(Last200(a) + b) == Last200(a + b)
  {
  }

  // The stored events are the last 200 of everything that ever happened.
  lemma {:induction false} EventsAreLast200(cfg: Configs, ts: seq<Tick>)
    requires Accepted(cfg)
    ensures Run(cfg, ts).events == Last200(AllEvents(cfg, ts))
    ensures var all := AllEvents(cfg, ts);
            Run(cfg, ts).events == if |all| <= 200 then all else all[|all| - 200..]
  {
    if ts != [] {
      var before, t := ts[..|ts| - 1], ts[|ts| - 1];
      EventsAreLast200(cfg, before);
      Last200Absorbs(AllEvents(cfg, before), EventsOf(cfg, SelectDue(Table(cfg, before, t.now), cfg, t.now), t));
    }
  }

  // ---- the overall status ----

  // The last execution ended with one of the statuses.
  ghost predicate EndedIn(h: seq<Execution>, statuses: set<string>) {
    h != [] && h[|h| - 1].status in statuses
  }

  // No execution, or one that says so itself.
  ghost predicate Unrun(h: seq<Execution>) {
    h == [] || h[|h| - 1].status == "NEVER_RUN"
  }

  /** The stored overall status in any run, in terms of the histories and of the rows that missed their deadline. */
  lemma OverallFromHistory(cfg: Configs, ts: seq<Tick>)
    requires Accepted(cfg) && ts != []
    ensures Complete(Run(cfg, ts).phases)
    ensures var overall := Run(cfg, ts).overall;
            var failed := exists p :: EndedIn(History(cfg, ts, p), {"FAIL", "ERROR"});
            var missed := exists p: Phase :: Run(cfg, ts).phases[p].missedDeadline;
            var unrun := exists p :: Unrun(History(cfg, ts, p));
            && (overall == "critical" <==> failed)
            && (overall == "warning" <==> !failed && missed)
            && (overall == "unknown" <==> !failed && !missed && unrun)
            && (overall == "ok" <==> !failed && !missed && !unrun)
  {
    hide Run, Table, History, PhasesAfter, OverallStatus, EndedIn, Unrun, Accepted;
    StoredIsComplete(cfg, ts);
    OverallIs(cfg, ts);
    var phases := Run(cfg, ts).phases;
    OverallMeans(phases);
    if p: Phase :| phases[p].lastStatus in {"FAIL", "ERROR"} {
      LastStatusIs(cfg, ts, p);
    }
    if p :| EndedIn(History(cfg, ts, p), {"FAIL", "ERROR"}) {
      LastStatusIs(cfg, ts, p);
    }
    if p: Phase :| phases[p].lastStatus == "NEVER_RUN" {
      LastStatusIs(cfg, ts, p);
    }
    if p :| Unrun(History(cfg, ts, p)) {
      LastStatusIs(cfg, ts, p);
    }
  }

  lemma StoredIsComplete(cfg: Configs, ts: seq<Tick>)
    requires Accepted(cfg) && ts != []
    ensures Complete(Run(cfg, ts).phases)
  {
    hide Run, PhasesAfter, Normalized;
    TableIsStored(cfg, ts, 0);
    assert Complete(Table(cfg, ts, 0));
  }

  lemma LastStatusIs(cfg: Configs, ts: seq<Tick>, p: Phase)
    requires Accepted(cfg) && ts != [] && Complete(Run(cfg, ts).phases)
    ensures var status := Run(cfg, ts).phases[p].lastStatus;
            && (status in {"FAIL", "ERROR"} <==> EndedIn(History(cfg, ts, p), {"FAIL", "ERROR"}))
            && (status == "NEVER_RUN" <==> Unrun(History(cfg, ts, p)))
  {
    hide Run, Table, History, PhasesAfter, FailingTail, RowMatches, EndedIn, Unrun;
    TableIsStored(cfg, ts, 0);
    RowsMatchHistory(cfg, ts, p, 0);
    RowStatus(Table(cfg, ts, 0)[p], History(cfg, ts, p), cfg[p].cadence);
  }

  lemma RowStatus(row: PhaseState, h: seq<Execution>, cadence: int)
    requires RowMatches(row, h, cadence)
    ensures row.lastStatus in {"FAIL", "ERROR"} <==> EndedIn(h, {"FAIL", "ERROR"})
    ensures row.lastStatus == "NEVER_RUN" <==> Unrun(h)
  {
    hide FailingTail;
    assert "NEVER_RUN"[0] == 'N';
  }

  lemma OverallIs(cfg: Configs, ts: seq<Tick>)
    requires Accepted(cfg) && ts != []
    ensures Run(cfg, ts).overall == OverallStatus(Run(cfg, ts).phases)
  {
    hide PhasesAfter, OverallStatus;
  }

  /** A row is marked as late by a tick that selects it, dry or live, after its due time; a tick that selects it in
      time, for the first time or for re-entry clears the mark, and any other leaves it. */
  lemma MissedAfterTick(cfg: Configs, ts: seq<Tick>, t: Tick, p: Phase)
    requires Accepted(cfg)
    ensures var h := History(cfg, ts, p);
            var before, after := Table(cfg, ts, t.now)[p].missedDeadline, Table(cfg, ts + [t], t.now)[p].missedDeadline;
            if Forced(cfg, ts, p) || h == [] then !after
            else if t.now > h[|h| - 1].completed + cfg[p].cadence then after
            else if t.now == h[|h| - 1].completed + cfg[p].cadence then !after
            else after == before
  {
    assert (ts + [t])[..|ts|] == ts;
    TableIsStored(cfg, ts + [t], t.now);
    RowsMatchHistory(cfg, ts, p, t.now);
    ReentryFromHistory(cfg, ts, t.now);
    hide Table, History, RowMatches, Reentry;
    RowMissed(Table(cfg, ts, t.now), cfg, t, p, History(cfg, ts, p));
  }

  lemma RowMissed(n: map<Phase, PhaseState>, cfg: Configs, t: Tick, p: Phase, h: seq<Execution>)
    requires Accepted(cfg) && Complete(n) && RowMatches(n[p], h, cfg[p].cadence)
    ensures var after := PhasesAfter(n, cfg, t)[p].missedDeadline;
            if (p == Observe && VerifyFailureRequiresObserve(n)) || h == [] then !after
            else if t.now > h[|h| - 1].completed + cfg[p].cadence then after
            else if t.now == h[|h| - 1].completed + cfg[p].cadence then !after
            else after == n[p].missedDeadline
  {
    hide FailingTail, VerifyFailureRequiresObserve, Executed;
    if DueFor(n, cfg, p, t.now).Some? {
      ReasonsMean(n, cfg, p, t.now);
    }
  }

  // ---- when phases run ----

  // The re-entry condition read off the histories of Verify and Observe.
  ghost predicate Reentry(v: seq<Execution>, o: seq<Execution>) {
    && v != [] && Fails(v[|v| - 1].status)
    && (o == [] || o[|o| - 1].started <= v[|v| - 1].completed)
  }

  // The forced re-entry is on exactly when the last Verify failed and Observe has not started since.
  lemma ReentryFromHistory(cfg: Configs, ts: seq<Tick>, now: int)
    requires Accepted(cfg)
    ensures VerifyFailureRequiresObserve(Table(cfg, ts, now)) <==>
            Reentry(History(cfg, ts, Verify), History(cfg, ts, Observe))
  {
    RowsMatchHistory(cfg, ts, Verify, now);
    RowsMatchHistory(cfg, ts, Observe, now);
    hide Table, History;
  }

  // What tick t does with phase p, whose history is h: it runs exactly when the tick is live and p is
  // forced, never ran, or its cadence has passed since it completed; the run starts at the tick's time.
  ghost predicate RunsAsDue(x: Option<Execution>, t: Tick, h: seq<Execution>, cadence: int, forced: bool) {
    && (x.Some? <==> !t.dryRun && (forced || h == [] || t.now >= h[|h| - 1].completed + cadence))
    && (x.Some? ==> x.value.started == t.now <= x.value.completed && (x.value.reason == REENTER <==> forced))
  }

  lemma RowRunsAsDue(n: map<Phase, PhaseState>, cfg: Configs, t: Tick, p: Phase, h: seq<Execution>)
    requires Accepted(cfg) && Complete(n) && RowMatches(n[p], h, cfg[p].cadence)
    ensures RunsAsDue(RanIn(n, cfg, t, p), t, h, cfg[p].cadence, p == Observe && VerifyFailureRequiresObserve(n))
  {
    hide VerifyFailureRequiresObserve, FailingTail;
  }

  ghost predicate Forced(cfg: Configs, ts: seq<Tick>, p: Phase)
    requires Accepted(cfg)
  {
    p == Observe && Reentry(History(cfg, ts, Verify), History(cfg, ts, Observe))
  }

  lemma RunsWhenDue(cfg: Configs, ts: seq<Tick>, t: Tick, p: Phase)
    requires Accepted(cfg)
    ensures RunsAsDue(Ran(cfg, ts, t, p), t, History(cfg, ts, p), cfg[p].cadence, Forced(cfg, ts, p))
  {
    ReentryFromHistory(cfg, ts, t.now);
    RowsMatchHistory(cfg, ts, p, t.now);
    RowRunsAsDue(Table(cfg, ts, t.now), cfg, t, p, History(cfg, ts, p));
    hide *;
  }

  // Consecutive executions respect the cadence, unless the second one is a forced re-entry.
  ghost predicate Spaced(h: seq<Execution>, cadence: int) {
    && (forall i :: 0 <= i < |h| ==> h[i].started <= h[i].completed)
    && (forall i {:trigger h[i]} :: 1 <= i < |h| && h[i].reason != REENTER ==>
          h[i].started >= h[i - 1].completed + cadence)
  }

  lemma SpacedAppend(h: seq<Execution>, x: Option<Execution>, t: Tick, cadence: int, forced: bool)
    requires Spaced(h, cadence) && RunsAsDue(x, t, h, cadence, forced)
    ensures Spaced(h + Listed(x), cadence)
    ensures forall e :: e in h + Listed(x) ==> e in h || (forced || e.reason != REENTER)
  {
    if x.None? {
      assert h + [] == h;
    }
  }

  // Rate bound, for every run and every clock: the next start is a cadence after the previous completion.
  lemma {:induction false} RateBound(cfg: Configs, ts: seq<Tick>, p: Phase)
    requires Accepted(cfg)
    ensures Spaced(History(cfg, ts, p), cfg[p].cadence)
    ensures p != Observe ==> forall e :: e in History(cfg, ts, p) ==> e.reason != REENTER
  {
    if ts != [] {
      var before, t := ts[..|ts| - 1], ts[|ts| - 1];
      RateBound(cfg, before, p);
      RunsWhenDue(cfg, before, t, p);
      SpacedAppend(History(cfg, before, p), Ran(cfg, before, t, p), t, cfg[p].cadence, Forced(cfg, before, p));
      hide Ran, Spaced, RunsAsDue, Reentry;
    }
  }

  ghost function IsReentry(): Execution -> bool {
    (e: Execution) => e.reason == REENTER
  }

  ghost function IsFailure(): Execution -> bool {
    (e: Execution) => Fails(e.status)
  }

  lemma OneMore(k: int, c: int)
    ensures (k + 1) * c == k * c + c
  {
  }

  // Spacing summed up over a history whose starts never go back.
  lemma {:induction false} SpacingSums(h: seq<Execution>, cadence: int)
    requires Spaced(h, cadence) && cadence > 0 && h != []
    requires forall i :: 1 <= i < |h| ==> h[i - 1].started <= h[i].started
    requires h[0].reason != REENTER
    ensures FitsElapsed(h, CountIf(h, IsReentry()), cadence)
  {
    var t := h[..|h| - 1];
    if t == [] {
      assert CountIf(h, IsReentry()) == 0;
    } else {
      SpacingSums(t, cadence);
      var k, r := |t| - 1 - CountIf(t, IsReentry()), h[|h| - 1].reason == REENTER;
      assert |h| - 1 - CountIf(h, IsReentry()) == if r then k else k + 1;
      OneMore(k, cadence);
      assert h[|h| - 2] == t[|t| - 1];
    }
  }

  lemma {:induction false} NoReentries(h: seq<Execution>)
    requires forall e :: e in h ==> e.reason != REENTER
    ensures CountIf(h, IsReentry()) == 0
  {
    if h != [] {
      NoReentries(h[..|h| - 1]);
    }
  }

  lemma StartsNeverGoBack(h: seq<Execution>, cadence: int)
    requires Spaced(h, cadence) && cadence > 0 && forall e :: e in h ==> e.reason != REENTER
    ensures forall i :: 1 <= i < |h| ==> h[i - 1].started <= h[i].started
  {
    forall i | 1 <= i < |h|
      ensures h[i - 1].started <= h[i].started
    {
      assert h[i] in h;
    }
  }

  ghost predicate FitsElapsed(h: seq<Execution>, extra: nat, cadence: int)
    requires h != []
  {
    (|h| - 1 - extra) * cadence <= h[|h| - 1].started - h[0].started
  }

  lemma SpacedRunsFit(h: seq<Execution>, cadence: int)
    requires Spaced(h, cadence) && cadence > 0 && h != [] && forall e :: e in h ==> e.reason != REENTER
    ensures FitsElapsed(h, 0, cadence)
  {
    hide Spaced;
    NoReentries(h);
    StartsNeverGoBack(h, cadence);
    SpacingSums(h, cadence);
  }

  // Runs of any phase but Observe: one fewer than the runs times the cadence fits in the elapsed time.
  lemma RunsFitElapsedTime(cfg: Configs, ts: seq<Tick>, p: Phase)
    requires Accepted(cfg) && p != Observe && History(cfg, ts, p) != []
    ensures FitsElapsed(History(cfg, ts, p), 0, cfg[p].cadence)
  {
    hide History, Spaced, FitsElapsed;
    RateBound(cfg, ts, p);
    SpacedRunsFit(History(cfg, ts, p), cfg[p].cadence);
  }

  // ---- a clock that is strictly past every recorded completion ----

  ghost predicate Past(cfg: Configs, ts: seq<Tick>, now: int)
    requires Accepted(cfg)
  {
    forall p, e :: e in History(cfg, ts, p) ==> e.completed < now
  }

  ghost predicate Advancing(cfg: Configs, ts: seq<Tick>)
    requires Accepted(cfg)
  {
    ts == [] || (Advancing(cfg, ts[..|ts| - 1]) && Past(cfg, ts[..|ts| - 1], ts[|ts| - 1].now))
  }

  // The last live tick ran Verify, and it failed.
  ghost predicate VerifyJustFailed(cfg: Configs, ts: seq<Tick>)
    requires Accepted(cfg)
  {
    ts != [] &&
    var before, t := ts[..|ts| - 1], ts[|ts| - 1];
    if t.dryRun then VerifyJustFailed(cfg, before)
    else Ran(cfg, before, t, Verify).Some? && Fails(Ran(cfg, before, t, Verify).value.status)
  }

  // One step of the equivalence below, on histories: v and o after a live tick at `now`.
  lemma ReentryStep(v: seq<Execution>, o: seq<Execution>, xv: Option<Execution>, xo: Option<Execution>, now: int)
    requires forall e :: e in v || e in o ==> e.started <= e.completed < now
    requires xv.Some? ==> xv.value.started == now <= xv.value.completed
    requires xo.Some? ==> xo.value.started == now
    requires Reentry(v, o) ==> xo.Some?
    ensures Reentry(v + Listed(xv), o + Listed(xo)) <==> xv.Some? && Fails(xv.value.status)
  {
    assert v != [] ==> v[|v| - 1] in v;
    assert o != [] ==> o[|o| - 1] in o;
  }

  lemma {:induction false} ReentryIffJustFailed(cfg: Configs, ts: seq<Tick>)
    requires Accepted(cfg) && Advancing(cfg, ts)
    ensures Reentry(History(cfg, ts, Verify), History(cfg, ts, Observe)) <==> VerifyJustFailed(cfg, ts)
  {
    if ts != [] {
      var before, t := ts[..|ts| - 1], ts[|ts| - 1];
      var v, o := History(cfg, before, Verify), History(cfg, before, Observe);
      ReentryIffJustFailed(cfg, before);
      RunsWhenDue(cfg, before, t, Verify);
      RunsWhenDue(cfg, before, t, Observe);
      RateBound(cfg, before, Verify);
      RateBound(cfg, before, Observe);
      hide Ran, Reentry;
      if t.dryRun {
        assert v + [] == v && o + [] == o;
      } else {
        ReentryStep(v, o, Ran(cfg, before, t, Verify), Ran(cfg, before, t, Observe), t.now);
      }
    }
  }

  // A failed Verify is answered in the very next live tick by Observe with the re-entry reason, and
  // Observe runs with that reason at no other time.
  lemma ObserveReentersExactlyAfterFailure(cfg: Configs, ts: seq<Tick>, t: Tick)
    requires Accepted(cfg) && Advancing(cfg, ts) && !t.dryRun
    ensures var x := Ran(cfg, ts, t, Observe);
            (x.Some? && x.value.reason == REENTER) <==> VerifyJustFailed(cfg, ts)
  {
    ReentryIffJustFailed(cfg, ts);
    RunsWhenDue(cfg, ts, t, Observe);
  }

  lemma HistoryAppend(cfg: Configs, ts: seq<Tick>, t: Tick, p: Phase)
    requires Accepted(cfg)
    ensures History(cfg, ts + [t], p) == History(cfg, ts, p) + Listed(Ran(cfg, ts, t, p))
  {
    hide Ran;
    assert (ts + [t])[..|ts|] == ts;
  }

  lemma JustFailedAppend(cfg: Configs, ts: seq<Tick>, t: Tick)
    requires Accepted(cfg) && !t.dryRun
    ensures VerifyJustFailed(cfg, ts + [t]) <==>
            Ran(cfg, ts, t, Verify).Some? && Fails(Ran(cfg, ts, t, Verify).value.status)
  {
    hide Ran;
    assert (ts + [t])[..|ts|] == ts;
  }

  // The first half needs no advancing clock: a failure forces the re-entry unless Observe has already
  // started later than the failing Verify completed.
  lemma FailureForcesReentry(cfg: Configs, ts: seq<Tick>, t: Tick)
    requires Accepted(cfg) && VerifyJustFailed(cfg, ts + [t]) && !t.dryRun
    requires forall e :: e in History(cfg, ts, Observe) ==> e.started <= t.now
    ensures Forced(cfg, ts + [t], Observe)
  {
    hide Ran, History, VerifyJustFailed;
    JustFailedAppend(cfg, ts, t);
    HistoryAppend(cfg, ts, t, Verify);
    HistoryAppend(cfg, ts, t, Observe);
    RunsWhenDue(cfg, ts, t, Verify);
    RunsWhenDue(cfg, ts, t, Observe);
    var o := History(cfg, ts, Observe);
    assert o != [] ==> o[|o| - 1] in o;
  }

  // The second half fails without it: the tick that answers a failure leaves the re-entry on exactly
  // when it comes no later than the failing Verify's completion, although Verify has not run again.
  lemma AnsweredTooEarlyRepeats(cfg: Configs, ts: seq<Tick>, t: Tick)
    requires Accepted(cfg) && Forced(cfg, ts, Observe) && !t.dryRun
    requires Ran(cfg, ts, t, Verify).None?
    ensures var v := History(cfg, ts, Verify);
            Forced(cfg, ts + [t], Observe) <==> t.now <= v[|v| - 1].completed
    ensures !VerifyJustFailed(cfg, ts + [t])
  {
    hide Ran, History, VerifyJustFailed;
    JustFailedAppend(cfg, ts, t);
    HistoryAppend(cfg, ts, t, Verify);
    HistoryAppend(cfg, ts, t, Observe);
    RunsWhenDue(cfg, ts, t, Observe);
  }

  // ---- a run in which the re-entry repeats ----

  const EVERY_FIVE: Configs := map[
    Observe := PhaseConfig(5, true), Orient := PhaseConfig(5, true), Decide := PhaseConfig(5, true),
    Act := PhaseConfig(5, true), Verify := PhaseConfig(5, true)]

  // A live tick in which Verify takes a minute to fail and everything else passes at once.
  function SlowFailure(now: int): Tick {
    Tick(now, false, (p: Phase) => if p == Verify then Outcome("FAIL", 60) else Outcome("PASS", 0))
  }

  lemma EveryFiveAccepted()
    ensures Accepted(EVERY_FIVE)
  {
    forall p: Phase
      ensures p in EVERY_FIVE && EVERY_FIVE[p].cadence > 0
    {
      match p
      case Observe => case Orient => case Decide => case Act => case Verify =>
    }
  }

  lemma FirstRun(p: Phase)
    requires Accepted(EVERY_FIVE)
    ensures var x := Execution(SlowFailure(0).outcome(p).status, 0, SlowFailure(0).outcome(p).duration, "never_run");
            Ran(EVERY_FIVE, [], SlowFailure(0), p) == Some(x) && History(EVERY_FIVE, [SlowFailure(0)], p) == [x]
  {
    EveryFiveHasCommands(p);
    assert Run(EVERY_FIVE, []) == EMPTY;
    assert [] + [SlowFailure(0)] == [SlowFailure(0)];
    HistoryAppend(EVERY_FIVE, [], SlowFailure(0), p);
  }

  lemma EveryFiveHasCommands(p: Phase)
    requires Accepted(EVERY_FIVE)
    ensures EVERY_FIVE[p] == PhaseConfig(5, true)
  {
    match p
    case Observe => case Orient => case Decide => case Act => case Verify =>
  }

  // Two answers to one failure, the first of them too early.
  lemma AnsweredTwice(cfg: Configs, ts: seq<Tick>, u: Tick, v: Tick)
    requires Accepted(cfg) && Forced(cfg, ts, Observe) && !u.dryRun && !v.dryRun
    requires Ran(cfg, ts, u, Verify).None?
             && u.now <= History(cfg, ts, Verify)[|History(cfg, ts, Verify)| - 1].completed
    ensures var first, second := Ran(cfg, ts, u, Observe), Ran(cfg, ts + [u], v, Observe);
            first.Some? && first.value.reason == REENTER && second.Some? && second.value.reason == REENTER
    ensures !VerifyJustFailed(cfg, ts + [u])
  {
    hide Ran, History, VerifyJustFailed, Reentry;
    AnsweredTooEarlyRepeats(cfg, ts, u);
    RunsWhenDue(cfg, ts, u, Observe);
    RunsWhenDue(cfg, ts + [u], v, Observe);
  }

  lemma FirstFailure()
    requires Accepted(EVERY_FIVE)
    ensures var t, u := SlowFailure(0), SlowFailure(1);
            var h := History(EVERY_FIVE, [t], Verify);
            && VerifyJustFailed(EVERY_FIVE, [t]) && Forced(EVERY_FIVE, [t], Observe)
            && h != [] && h[|h| - 1].completed == 60 && Ran(EVERY_FIVE, [t], u, Verify).None?
  {
    var t := SlowFailure(0);
    FirstRun(Verify);
    FirstRun(Observe);
    EveryFiveHasCommands(Verify);
    hide Ran, History, VerifyJustFailed, EVERY_FIVE;
    assert [] + [t] == [t];
    JustFailedAppend(EVERY_FIVE, [], t);
    RunsWhenDue(EVERY_FIVE, [t], SlowFailure(1), Verify);
  }

  // Verify fails in the tick at 0 and would complete at 60. The tick at 1 answers with a re-entry and does not run
  // Verify, and still the tick at 2 re-enters again.
  lemma ReentryRepeats()
    ensures Accepted(EVERY_FIVE)
    ensures var t, u, v := SlowFailure(0), SlowFailure(1), SlowFailure(2);
            var first, second := Ran(EVERY_FIVE, [t], u, Observe), Ran(EVERY_FIVE, [t] + [u], v, Observe);
            && VerifyJustFailed(EVERY_FIVE, [t]) && !VerifyJustFailed(EVERY_FIVE, [t] + [u])
            && Ran(EVERY_FIVE, [t], u, Verify).None?
            && first.Some? && first.value.reason == REENTER && second.Some? && second.value.reason == REENTER
  {
    hide Ran, History, VerifyJustFailed, Forced, EVERY_FIVE;
    EveryFiveAccepted();
    FirstFailure();
    AnsweredTwice(EVERY_FIVE, [SlowFailure(0)], SlowFailure(1), SlowFailure(2));
  }

  // Conservation: every failed Verify has had its re-entry, except one that has just happened.
  lemma {:induction false} ReentriesBalanceFailures(cfg: Configs, ts: seq<Tick>)
    requires Accepted(cfg) && Advancing(cfg, ts)
    ensures CountIf(History(cfg, ts, Observe), IsReentry()) + (if VerifyJustFailed(cfg, ts) then 1 else 0)
         == CountIf(History(cfg, ts, Verify), IsFailure())
  {
    if ts != [] {
      var before, t := ts[..|ts| - 1], ts[|ts| - 1];
      var v, o := History(cfg, before, Verify), History(cfg, before, Observe);
      ReentriesBalanceFailures(cfg, before);
      RunsWhenDue(cfg, before, t, Verify);
      RunsWhenDue(cfg, before, t, Observe);
      ReentryIffJustFailed(cfg, before);
      CountListed(v, Ran(cfg, before, t, Verify), IsFailure());
      CountListed(o, Ran(cfg, before, t, Observe), IsReentry());
      hide Ran, Reentry, CountIf, Advancing;
    }
  }

  lemma CountListed(h: seq<Execution>, x: Option<Execution>, what: Execution -> bool)
    ensures CountIf(h + Listed(x), what) == CountIf(h, what) + if x.Some? && what(x.value) then 1 else 0
  {
    if x.Some? {
      assert (h + [x.value])[..|h|] == h;
    } else {
      assert h + [] == h;
    }
  }

  // ---- Observe's own rate under an advancing clock ----

  lemma {:induction false} ObserveStartsNeverGoBack(cfg: Configs, ts: seq<Tick>)
    requires Accepted(cfg) && Advancing(cfg, ts)
    ensures var h := History(cfg, ts, Observe);
            && (forall i :: 1 <= i < |h| ==> h[i - 1].started <= h[i].started)
            && (h != [] ==> h[0].reason != REENTER)
    ensures History(cfg, ts, Observe) == [] ==> History(cfg, ts, Verify) == []
  {
    if ts != [] {
      var before, t := ts[..|ts| - 1], ts[|ts| - 1];
      ObserveStartsNeverGoBack(cfg, before);
      RunsWhenDue(cfg, before, t, Observe);
      RunsWhenDue(cfg, before, t, Verify);
      RateBound(cfg, before, Observe);
      hide Ran;
    }
  }

  lemma MoreExtraFits(h: seq<Execution>, extra: nat, more: nat, cadence: int)
    requires h != [] && FitsElapsed(h, extra, cadence) && extra <= more && cadence > 0
    ensures FitsElapsed(h, more, cadence)
  {
    assert (|h| - 1 - more) * cadence <= (|h| - 1 - extra) * cadence;
  }

  // Observe keeps its cadence too, up to one extra run for each failed Verify.
  lemma ObserveRunsFitElapsedTime(cfg: Configs, ts: seq<Tick>)
    requires Accepted(cfg) && Advancing(cfg, ts) && History(cfg, ts, Observe) != []
    ensures FitsElapsed(History(cfg, ts, Observe), CountIf(History(cfg, ts, Verify), IsFailure()), cfg[Observe].cadence)
  {
    hide History, Spaced, FitsElapsed, CountIf, Advancing;
    var h, c := History(cfg, ts, Observe), cfg[Observe].cadence;
    RateBound(cfg, ts, Observe);
    ObserveStartsNeverGoBack(cfg, ts);
    SpacingSums(h, c);
    ReentriesBalanceFailures(cfg, ts);
    MoreExtraFits(h, CountIf(h, IsReentry()), CountIf(History(cfg, ts, Verify), IsFailure()), c);
  }

  // ---- waking up ----

  ghost predicate AnyLive(ts: seq<Tick>) {
    exists i :: 0 <= i < |ts| && !ts[i].dryRun
  }

  // The first live tick runs everything.
  lemma {:induction false} LiveTickRunsAll(cfg: Configs, ts: seq<Tick>, p: Phase)
    requires Accepted(cfg) && AnyLive(ts)
    ensures History(cfg, ts, p) != []
  {
    var before, t := ts[..|ts| - 1], ts[|ts| - 1];
    if !t.dryRun {
      RunsWhenDue(cfg, before, t, p);
    } else {
      var i :| 0 <= i < |ts| && !ts[i].dryRun;
      assert !before[i].dryRun;
      LiveTickRunsAll(cfg, before, p);
    }
  }

  // With every phase's due time stored, a tick at time `at` selects something exactly when Verify's
  // failure is pending or some stored due time has come.
  lemma SelectsIffSomeDue(n: map<Phase, PhaseState>, cfg: Configs, at: int)
    requires Accepted(cfg) && Complete(n)
    requires forall p: Phase :: n[p].lastCompleted.Some? && n[p].nextDueAt == n[p].lastCompleted.value + cfg[p].cadence
    ensures SelectDue(n, cfg, at) != [] <==>
            VerifyFailureRequiresObserve(n) || exists p: Phase :: n[p].nextDueAt <= at
  {
    Selected(n, cfg, at);
    hide SelectDue, VerifyFailureRequiresObserve;
    if SelectDue(n, cfg, at) != [] {
      var d := SelectDue(n, cfg, at)[0];
      assert d in SelectDue(n, cfg, at);
    }
    if VerifyFailureRequiresObserve(n) {
      assert DueFor(n, cfg, Observe, at).Some?;
      assert DueFor(n, cfg, Observe, at).value in SelectDue(n, cfg, at);
    }
    forall p: Phase | n[p].nextDueAt <= at
      ensures SelectDue(n, cfg, at) != []
    {
      DueForPhase(n, cfg, p, at);
      assert DueFor(n, cfg, p, at).Some?;
      assert DueFor(n, cfg, p, at).value in SelectDue(n, cfg, at);
    }
  }

  lemma AllRowsPlanned(cfg: Configs, ts: seq<Tick>, at: int, p: Phase)
    requires Accepted(cfg) && AnyLive(ts)
    ensures var s := Table(cfg, ts, at)[p];
            s.lastCompleted.Some? && s.nextDueAt == s.lastCompleted.value + cfg[p].cadence
  {
    LiveTickRunsAll(cfg, ts, p);
    RowsMatchHistory(cfg, ts, p, at);
    hide Table, History;
  }

  // No idle wake and no oversleep: once a live tick has happened, a later tick selects a phase exactly
  // when the scheduler's own sleep has passed.
  lemma SleepIsExact(cfg: Configs, ts: seq<Tick>, now: int, at: int)
    requires Accepted(cfg) && AnyLive(ts) && at > now
    ensures SelectDue(Table(cfg, ts, at), cfg, at) != [] <==> at >= now + SecondsUntilNextDue(Run(cfg, ts).phases, now)
  {
    TableIsStored(cfg, ts, at);
    hide SelectDue, VerifyFailureRequiresObserve, SecondsUntilNextDue, Table, Run;
    var n := Table(cfg, ts, at);
    forall p: Phase
      ensures n[p].lastCompleted.Some? && n[p].nextDueAt == n[p].lastCompleted.value + cfg[p].cadence
    {
      AllRowsPlanned(cfg, ts, at, p);
    }
    SelectsIffSomeDue(n, cfg, at);
    SleepsToEarliest(n, now, at);
  }
}
