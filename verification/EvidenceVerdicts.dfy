/** What leaving the evidence scan early changes in the fleet audit's verdicts, and what it does not. */
module EvidenceVerdicts {
  import opened EvidenceScan
  import opened Lists
  import opened Text

  // ---- what the unread rows would have added ----

  // The rows the scan leaves unread.
  ghost function Unread(l: Logs): seq<Gain> {
    var n := |Scanned(l)|;
    if n <= |AllGains(l)| then AllGains(l)[n..] else []
  }

  ghost predicate NamesTool(gs: seq<Gain>, tool: string) {
    exists g :: g in gs && tool in g.tools
  }

  ghost predicate NamesItem(gs: seq<Gain>, x: Item) {
    exists g :: g in gs && x in g.evidence
  }

  ghost predicate NamesDocker(gs: seq<Gain>, x: Item) {
    exists g :: g in gs && x in g.docker
  }

  predicate NotBefore(ts: Option<int>, t: int) {
    ts.Some? && ts.value >= t
  }

  // Some row is at least as late as t.
  ghost predicate AsLateAs(gs: seq<Gain>, t: int) {
    exists g :: g in gs && NotBefore(g.ts, t)
  }

  lemma {:induction false} TotalNames(gs: seq<Gain>)
    ensures forall t :: t in Total(gs).tools <==> NamesTool(gs, t)
    ensures forall x :: x in Total(gs).evidence <==> NamesItem(gs, x)
    ensures forall x :: x in Total(gs).docker <==> NamesDocker(gs, x)
    ensures forall t :: NotBefore(Total(gs).ts, t) <==> AsLateAs(gs, t)
  {
    if gs != [] {
      var t, g := gs[..|gs| - 1], gs[|gs| - 1];
      assert gs == t + [g];
      TotalNames(t);
      NamesGrow(t, g);
    }
  }

  lemma NamesGrow(gs: seq<Gain>, g: Gain)
    ensures forall t :: NamesTool(gs + [g], t) <==> NamesTool(gs, t) || t in g.tools
    ensures forall x :: NamesItem(gs + [g], x) <==> NamesItem(gs, x) || x in g.evidence
    ensures forall x :: NamesDocker(gs + [g], x) <==> NamesDocker(gs, x) || x in g.docker
    ensures forall t :: AsLateAs(gs + [g], t) <==> AsLateAs(gs, t) || NotBefore(g.ts, t)
  {
    assert forall h :: h in gs + [g] <==> h in gs || h == g;
  }

  lemma NamesConcat(a: seq<Gain>, b: seq<Gain>)
    ensures forall t :: NamesTool(a + b, t) <==> NamesTool(a, t) || NamesTool(b, t)
    ensures forall x :: NamesItem(a + b, x) <==> NamesItem(a, x) || NamesItem(b, x)
    ensures forall x :: NamesDocker(a + b, x) <==> NamesDocker(a, x) || NamesDocker(b, x)
    ensures forall t :: AsLateAs(a + b, t) <==> AsLateAs(a, t) || AsLateAs(b, t)
  {
    assert forall h :: h in a + b <==> h in a || h in b;
  }

  lemma AllIsScannedAndUnread(l: Logs)
    ensures AllGains(l) == Scanned(l) + Unread(l)
  {
    hide Scanned, AllGains;
    ScannedIsPrefix(l);
  }

  // What each field of two totals being equal comes down to, when the second has more rows.
  lemma TotalsAgree(read: seq<Gain>, unread: seq<Gain>)
    ensures var a, full := Total(read), Total(read + unread);
            && (a.tools == full.tools <==> forall t :: NamesTool(unread, t) ==> NamesTool(read, t))
            && (a.evidence == full.evidence <==> forall x :: NamesItem(unread, x) ==> NamesItem(read, x))
            && (a.docker == full.docker <==> forall x :: NamesDocker(unread, x) ==> NamesDocker(read, x))
            && (a.ts == full.ts <==> forall t :: AsLateAs(unread, t) ==> AsLateAs(read, t))
  {
    hide Total, NamesTool, NamesItem, NamesDocker, AsLateAs;
    TotalNames(read);
    TotalNames(read + unread);
    NamesConcat(read, unread);
    LatestAgree(Total(read).ts, Total(read + unread).ts);
    hide NotBefore;
  }

  // Two latest times are equal if they are at least as late as the same times.
  lemma LatestAgree(a: Option<int>, b: Option<int>)
    ensures a == b <==> forall t :: NotBefore(a, t) <==> NotBefore(b, t)
  {
    if forall t :: NotBefore(a, t) <==> NotBefore(b, t) {
      if a.Some? {
        assert NotBefore(a, a.value);
      }
      if b.Some? {
        assert NotBefore(b, b.value);
      }
    }
  }

  /** Exactly when leaving off early changes nothing, field by field: every tool, item or time of an unread row
      must have been met, or for the time surpassed, in a row that was read. */
  lemma EarlyExitKeepsExactly(l: Logs)
    ensures var a, full := Total(Scanned(l)), Total(AllGains(l));
            && (a.tools == full.tools <==> forall t :: NamesTool(Unread(l), t) ==> NamesTool(Scanned(l), t))
            && (a.ts == full.ts <==> forall t :: AsLateAs(Unread(l), t) ==> AsLateAs(Scanned(l), t))
            && (a.evidence == full.evidence <==> forall x :: NamesItem(Unread(l), x) ==> NamesItem(Scanned(l), x))
            && (a.docker == full.docker <==> forall x :: NamesDocker(Unread(l), x) ==> NamesDocker(Scanned(l), x))
  {
    hide Scanned, AllGains, Unread, Total, NamesTool, NamesItem, NamesDocker, AsLateAs;
    AllIsScannedAndUnread(l);
    TotalsAgree(Scanned(l), Unread(l));
  }

  /** A tool is lost exactly if an unread row names it and no row that was read does. */
  lemma EarlyExitLosesTool(l: Logs, tool: string)
    ensures tool in Total(AllGains(l)).tools && tool !in Total(Scanned(l)).tools
            <==> NamesTool(Unread(l), tool) && !NamesTool(Scanned(l), tool)
  {
    hide Scanned, AllGains, Unread, Total, NamesTool;
    AllIsScannedAndUnread(l);
    TotalNames(Scanned(l));
    TotalNames(AllGains(l));
    NamesConcat(Scanned(l), Unread(l));
  }

  // ---- the verdicts on tools ----

  const BOARD_TOOLS := {
    "keeper_board_post", "keeper_board_comment", "keeper_board_vote", "keeper_board_get", "keeper_board_list",
    "keeper_board_search"}

  const PR_SURFACE_TOOLS := {
    "keeper_bash", "keeper_shell", "keeper_preflight_check", "keeper_pr_review_read", "keeper_pr_review_comment",
    "keeper_pr_review_reply", "masc_code_edit", "masc_code_git", "masc_code_shell", "masc_code_write"}

  const PR_REVIEW_MUTATION_TOOLS := {"keeper_pr_review_comment", "keeper_pr_review_reply"}

  // Whether some tool of the set was used.
  predicate Uses(tools: set<string>, wanted: set<string>) {
    tools * wanted != {}
  }

  ghost predicate RowUses(gs: seq<Gain>, wanted: set<string>) {
    exists g :: g in gs && Uses(g.tools, wanted)
  }

  // Only a read row or only an unread row can decide.
  lemma UsesExactly(l: Logs, wanted: set<string>)
    ensures Uses(Total(Scanned(l)).tools, wanted) <==> RowUses(Scanned(l), wanted)
    ensures Uses(Total(AllGains(l)).tools, wanted) <==> RowUses(Scanned(l), wanted) || RowUses(Unread(l), wanted)
  {
    hide Scanned, AllGains, Unread, Total;
    AllIsScannedAndUnread(l);
    TotalNames(Scanned(l));
    TotalNames(AllGains(l));
    NamesConcat(Scanned(l), Unread(l));
    UsedInSome(Scanned(l), Total(Scanned(l)).tools, wanted);
    UsedInSome(AllGains(l), Total(AllGains(l)).tools, wanted);
    assert forall g :: g in AllGains(l) <==> g in Scanned(l) || g in Unread(l);
  }

  lemma UsedInSome(gs: seq<Gain>, tools: set<string>, wanted: set<string>)
    requires forall t :: t in tools <==> NamesTool(gs, t)
    ensures Uses(tools, wanted) <==> RowUses(gs, wanted)
  {
    if Uses(tools, wanted) {
      var t :| t in tools * wanted;
      var g :| g in gs && t in g.tools;
      assert t in g.tools * wanted;
    }
    if RowUses(gs, wanted) {
      var g :| g in gs && Uses(g.tools, wanted);
      var t :| t in g.tools * wanted;
      assert NamesTool(gs, t);
      assert t in tools * wanted;
    }
  }

  /** The audit's verdicts on board, PR surface and review tools differ from those of an exhaustive scan exactly if only
      unread rows use such a tool, and for the board no post was found otherwise. */
  lemma ToolVerdictsExactly(l: Logs, posts: bool)
    ensures var a, full := Total(Scanned(l)).tools, Total(AllGains(l)).tools;
            && ((Uses(full, BOARD_TOOLS) || posts) != (Uses(a, BOARD_TOOLS) || posts)
                <==> RowUses(Unread(l), BOARD_TOOLS) && !RowUses(Scanned(l), BOARD_TOOLS) && !posts)
            && (Uses(full, PR_SURFACE_TOOLS) != Uses(a, PR_SURFACE_TOOLS)
                <==> RowUses(Unread(l), PR_SURFACE_TOOLS) && !RowUses(Scanned(l), PR_SURFACE_TOOLS))
            && (Uses(full, PR_REVIEW_MUTATION_TOOLS) != Uses(a, PR_REVIEW_MUTATION_TOOLS)
                <==> RowUses(Unread(l), PR_REVIEW_MUTATION_TOOLS) && !RowUses(Scanned(l), PR_REVIEW_MUTATION_TOOLS))
  {
    hide Scanned, AllGains, Unread, Total, RowUses, Uses, BOARD_TOOLS, PR_SURFACE_TOOLS, PR_REVIEW_MUTATION_TOOLS;
    UsesExactly(l, BOARD_TOOLS);
    UsesExactly(l, PR_SURFACE_TOOLS);
    UsesExactly(l, PR_REVIEW_MUTATION_TOOLS);
  }

  // ---- where a row that was read comes from ----

  lemma {:induction false} FlatMembers(files: seq<seq<Gain>>)
    ensures forall g :: g in Flat(files) <==> exists i :: 0 <= i < |files| && g in files[i]
  {
    if files != [] {
      var t, f := files[..|files| - 1], files[|files| - 1];
      FlatMembers(t);
      forall g
        ensures g in Flat(files) <==> exists i :: 0 <= i < |files| && g in files[i]
      {
        if g in Flat(t) {
          var i :| 0 <= i < |t| && g in t[i];
          assert files[i] == t[i];
        }
        if i :| 0 <= i < |files| && g in files[i] && g !in f {
          assert t[i] == files[i];
        }
      }
    }
  }

  lemma DecisionGainOf(l: Logs, g: Gain) returns (r: DecisionRow)
    requires g in Flat(DecisionFiles(l))
    ensures g == DecisionGain(r) && exists i :: 0 <= i < |l.decisions| && r in l.decisions[i]
  {
    hide Flat, DecisionGain;
    FlatMembers(DecisionFiles(l));
    var i :| 0 <= i < |l.decisions| && g in DecisionGains(l.decisions[i]);
    var j :| 0 <= j < |l.decisions[i]| && DecisionGains(l.decisions[i])[j] == g;
    r := l.decisions[i][j];
  }

  lemma MetricGainOf(l: Logs, g: Gain) returns (r: MetricRow)
    requires g in Flat(MetricFiles(l))
    ensures g == MetricGain(r, l.minTs) && exists i :: 0 <= i < |l.metrics| && r in l.metrics[i]
  {
    hide Flat, MetricGain;
    FlatMembers(MetricFiles(l));
    var i :| 0 <= i < |l.metrics| && g in MetricGains(l.metrics[i], l.minTs);
    var j :| 0 <= j < |l.metrics[i]| && MetricGains(l.metrics[i], l.minTs)[j] == g;
    r := l.metrics[i][j];
  }

  lemma CallGainOf(l: Logs, g: Gain) returns (r: CallRow)
    requires g in Flat(CallFiles(l))
    ensures g == CallGain(r, l.name, l.minTs) && exists i :: 0 <= i < |l.calls| && r in l.calls[i]
  {
    hide Flat, CallGain;
    FlatMembers(CallFiles(l));
    var i :| 0 <= i < |l.calls| && g in CallGains(l.calls[i], l.name, l.minTs);
    var j :| 0 <= j < |l.calls[i]| && CallGains(l.calls[i], l.name, l.minTs)[j] == g;
    r := l.calls[i][j];
  }

  // The metric and tool-call rows, and those of them that are read.
  ghost function LaterGains(l: Logs): seq<Gain> {
    Flat(MetricFiles(l)) + Flat(CallFiles(l))
  }

  ghost function LaterRead(l: Logs): seq<Gain> {
    var n := |Flat(DecisionFiles(l))|;
    if n <= |Scanned(l)| then Scanned(l)[n..] else []
  }

  lemma ReadInParts(l: Logs)
    ensures Scanned(l) == Flat(DecisionFiles(l)) + LaterRead(l)
    ensures LaterGains(l) == LaterRead(l) + Unread(l)
  {
    hide AllGains, Enough, Total, Flat, DecisionFiles, MetricFiles, CallFiles;
    AllIsScannedAndUnread(l);
    var d := Flat(DecisionFiles(l));
    assert d <= Scanned(l);
    assert AllGains(l) == d + LaterGains(l) by {
      EverythingInParts(l);
    }
    assert d + LaterGains(l) == d + (LaterRead(l) + Unread(l));
    SameTail(d, LaterGains(l), LaterRead(l) + Unread(l));
  }

  lemma EverythingInParts(l: Logs)
    ensures AllGains(l) == Flat(DecisionFiles(l)) + LaterGains(l)
  {
    hide Flat;
  }

  lemma SameTail(d: seq<Gain>, a: seq<Gain>, b: seq<Gain>)
    requires d + a == d + b
    ensures a == b
  {
    assert (d + a)[|d|..] == a && (d + b)[|d|..] == b;
  }

  // A push or an approval in a decision or tool-call row comes with a PR surface tool.
  lemma SurfaceRows(l: Logs, g: Gain)
    requires g in Flat(DecisionFiles(l)) || g in Flat(CallFiles(l))
    requires Has(g.evidence, GitPush) || Has(g.evidence, PrApprove)
    ensures Uses(g.tools, PR_SURFACE_TOOLS)
  {
    hide Flat, DecisionFiles, CallFiles;
    if g in Flat(DecisionFiles(l)) {
      var r := DecisionGainOf(l, g);
      ApprovalNamesTool(r);
    } else {
      var r := CallGainOf(l, g);
      CallNamesTool(r);
    }
  }

  lemma ApprovalNamesTool(r: DecisionRow)
    requires Has(DecisionEvidence(r), GitPush) || Has(DecisionEvidence(r), PrApprove)
    ensures "keeper_pr_review_comment" in DecisionTools(r) * PR_SURFACE_TOOLS
  {
  }

  lemma CallNamesTool(r: CallRow)
    requires Has(CallEvidence(r), GitPush) || Has(CallEvidence(r), PrApprove)
    ensures r.tool.Some? && r.tool.value in PR_SURFACE_TOOLS
  {
  }

  /** If the verdict on PR surface tools differs, every push and every approval that was read came from a metric row. */
  lemma SurfaceLostOnlyBehindMetrics(l: Logs)
    requires Uses(Total(AllGains(l)).tools, PR_SURFACE_TOOLS) != Uses(Total(Scanned(l)).tools, PR_SURFACE_TOOLS)
    ensures forall g :: g in Scanned(l) && (Has(g.evidence, GitPush) || Has(g.evidence, PrApprove)) ==>
              g in Flat(MetricFiles(l))
  {
    hide *;
    UsesExactly(l, PR_SURFACE_TOOLS);
    ReadInParts(l);
    LaterMembers(l);
    forall g | g in Scanned(l) && (Has(g.evidence, GitPush) || Has(g.evidence, PrApprove))
      ensures g in Flat(MetricFiles(l))
    {
      if g !in Flat(MetricFiles(l)) {
        assert g in Flat(DecisionFiles(l)) || g in LaterGains(l);
        SurfaceRows(l, g);
        UsedBy(Scanned(l), g, PR_SURFACE_TOOLS);
      }
    }
  }

  lemma UsedBy(gs: seq<Gain>, g: Gain, wanted: set<string>)
    requires g in gs && Uses(g.tools, wanted)
    ensures RowUses(gs, wanted)
  {
  }

  lemma LaterMembers(l: Logs)
    ensures forall g :: g in LaterGains(l) <==> g in Flat(MetricFiles(l)) || g in Flat(CallFiles(l))
  {
    hide Flat;
  }

  // ---- the silence window ----

  // Whether the keeper counts as active: the latest time known is no more than the window ago.
  predicate RecentAction(latest: Option<int>, now: int, window: int) {
    latest.Some? && (if now - latest.value > 0 then now - latest.value else 0) <= window
  }

  lemma LaterIsRecent(a: Option<int>, other: Option<int>, now: int, window: int)
    ensures RecentAction(Later(a, other), now, window)
            <==> (window >= 0 && NotBefore(a, now - window)) || RecentAction(other, now, window)
  {
  }

  // Whatever the scan's own bound is.
  lemma RecentRows(l: Logs, other: Option<int>, now: int, window: int)
    ensures RecentAction(Later(Total(Scanned(l)).ts, other), now, window)
            <==> (window >= 0 && AsLateAs(Scanned(l), now - window)) || RecentAction(other, now, window)
    ensures RecentAction(Later(Total(AllGains(l)).ts, other), now, window)
            <==> (window >= 0 && (AsLateAs(Scanned(l), now - window) || AsLateAs(Unread(l), now - window)))
                 || RecentAction(other, now, window)
  {
    hide Scanned, AllGains, Unread, Total, AsLateAs;
    AllIsScannedAndUnread(l);
    TotalNames(Scanned(l));
    TotalNames(AllGains(l));
    NamesConcat(Scanned(l), Unread(l));
    LaterIsRecent(Total(Scanned(l)).ts, other, now, window);
    LaterIsRecent(Total(AllGains(l)).ts, other, now, window);
  }

  ghost predicate Timed(gs: seq<Gain>) {
    exists g :: g in gs && g.ts.Some?
  }

  // Within the bound a metric or tool-call row that counts is untimed or recent.
  lemma LaterIsTimedOrRecent(l: Logs, gs: seq<Gain>)
    requires l.minTs.Some? && forall g :: g in gs ==> g in LaterGains(l)
    ensures AsLateAs(gs, l.minTs.value) <==> Timed(gs)
  {
    hide LaterGains;
    forall g | g in gs && g.ts.Some?
      ensures NotBefore(g.ts, l.minTs.value)
    {
      LaterIsInBound(l, g);
    }
  }

  lemma LaterIsInBound(l: Logs, g: Gain)
    requires l.minTs.Some? && g in LaterGains(l) && g.ts.Some?
    ensures NotBefore(g.ts, l.minTs.value)
  {
    hide Flat, MetricFiles, CallFiles, MetricEvidence, CallEvidence, MetricTools, LaterGains;
    LaterMembers(l);
    if g in Flat(MetricFiles(l)) {
      var r := MetricGainOf(l, g);
    } else {
      var r := CallGainOf(l, g);
    }
  }

  // The verdict on silence, with the rows that were read and with all rows.
  predicate Active(a: Gain, other: Option<int>, now: int, window: int) {
    RecentAction(Later(a.ts, other), now, window)
  }

  /** The audit reads the logs back to the start of the window it judges silence by. Its verdict then differs from that
      of an exhaustive scan exactly if an unread row carries a time, no metric or tool-call row that was read does, no
      decision row is recent, and no other time the audit knows is. */
  lemma SilenceVerdictExactly(l: Logs, other: Option<int>, now: int, window: int)
    requires l.minTs == Some(now - window)
    ensures Active(Total(AllGains(l)), other, now, window) != Active(Total(Scanned(l)), other, now, window)
            <==> window >= 0 && Timed(Unread(l)) && !Timed(LaterRead(l))
                 && !AsLateAs(Flat(DecisionFiles(l)), now - window) && !RecentAction(other, now, window)
    ensures Active(Total(Scanned(l)), other, now, window) ==> Active(Total(AllGains(l)), other, now, window)
  {
    hide Scanned, AllGains, Unread, Total, AsLateAs, Timed, LaterRead, LaterGains, Flat, RecentAction;
    RecentRows(l, other, now, window);
    ReadInParts(l);
    assert forall g :: g in LaterGains(l) <==> g in LaterRead(l) || g in Unread(l);
    LaterIsTimedOrRecent(l, LaterRead(l));
    LaterIsTimedOrRecent(l, Unread(l));
    NamesConcat(Flat(DecisionFiles(l)), LaterRead(l));
  }

  // A scan that leaves a row unread has read a push in a metric or tool-call row.
  lemma UnreadNeedsPush(l: Logs) returns (g: Gain)
    requires Unread(l) != []
    ensures g in LaterRead(l) && Has(g.docker, GitPush)
  {
    hide Scanned, AllGains, Total, Flat, LaterRead, DecisionEvidence;
    ScannedIsPrefix(l);
    AllIsScannedAndUnread(l);
    ReadInParts(l);
    TotalNames(Scanned(l));
    var x :| x in Total(Scanned(l)).docker && x.kind == GitPush;
    g :| g in Scanned(l) && x in g.docker;
    if g in Flat(DecisionFiles(l)) {
      var r := DecisionGainOf(l, g);
      DecisionsGiveNoPush(r);
    }
  }

  lemma DecisionsGiveNoPush(r: DecisionRow)
    ensures forall x :: x in DecisionEvidence(r) ==> x.kind != GitPush
  {
  }

  ghost predicate EachRowTimed(l: Logs) {
    && (forall i, r :: 0 <= i < |l.metrics| && r in l.metrics[i] ==> r.ts.Some?)
    && (forall i, r :: 0 <= i < |l.calls| && r in l.calls[i] ==> r.ts.Some?)
  }

  lemma PushIsTimed(l: Logs, g: Gain)
    requires EachRowTimed(l) && g in LaterGains(l) && Has(g.docker, GitPush)
    ensures g.ts.Some?
  {
    hide Flat, MetricFiles, CallFiles, MetricEvidence, CallEvidence, MetricTools, LaterGains;
    LaterMembers(l);
    if g in Flat(MetricFiles(l)) {
      var r := MetricGainOf(l, g);
    } else {
      var r := CallGainOf(l, g);
    }
  }

  /** So the verdict on silence is that of an exhaustive scan whenever every metric and tool-call row carries a time. */
  lemma TimedLogsKeepSilenceVerdict(l: Logs, other: Option<int>, now: int, window: int)
    requires l.minTs == Some(now - window) && EachRowTimed(l)
    ensures Active(Total(AllGains(l)), other, now, window) == Active(Total(Scanned(l)), other, now, window)
  {
    hide Scanned, AllGains, Unread, Total, AsLateAs, LaterRead, LaterGains, Flat, RecentAction, EachRowTimed, Active;
    SilenceVerdictExactly(l, other, now, window);
    if Timed(Unread(l)) {
      var g := UnreadNeedsPush(l);
      ReadInParts(l);
      PushIsTimed(l, g);
    }
  }

  // ---- a scan that loses a tool and a time ----

  // Old decisions that create and approve a PR, a push in a metric row without a time, and a recent board post.
  const CREATED := DecisionRow(
    Some(1), None, None, true, {}, [ToolCall(Some("keeper_pr_create"), true),
                                    ToolCall(Some("keeper_pr_review_comment"), true)], false, true, true, false, true)
  const PUSHED := MetricRow(None, Some("keeper_bash"), None, None, true, true, WorkAction, true, Some("GIT_PUSH"))
  const POSTED := CallRow("analyst", Some(950), Some("keeper_board_post"), true, false, true, [])

  // One file of each kind, read at time 1000 with a window of 100.
  const BUSY := Logs([[CREATED]], [[PUSHED]], [[POSTED]], "analyst", Some(900))

  lemma OneFile(g: Gain)
    ensures Flat([[g]]) == [g]
  {
    assert [[g]][..0] == [];
    assert Flat([[g]]) == Flat([]) + [g];
  }

  lemma TwoGains(g: Gain, h: Gain)
    ensures Total([g, h]) == Add(Add(NOTHING, g), h) && Total([g]) == Add(NOTHING, g)
  {
    assert [g][..0] == [] && [g, h][..1] == [g];
    assert Total([]) == NOTHING;
    assert Total([g]) == Add(Total([]), g);
    assert Total([g, h]) == Add(Total([g]), h);
  }

  lemma BusyFiles()
    ensures DecisionFiles(BUSY) == [[DecisionGain(CREATED)]]
    ensures MetricFiles(BUSY) == [[MetricGain(PUSHED, Some(900))]]
    ensures CallFiles(BUSY) == [[CallGain(POSTED, "analyst", Some(900))]]
  {
    assert DecisionGains([CREATED]) == [DecisionGain(CREATED)];
    assert MetricGains([PUSHED], Some(900)) == [MetricGain(PUSHED, Some(900))];
    assert CallGains([POSTED], "analyst", Some(900)) == [CallGain(POSTED, "analyst", Some(900))];
  }

  lemma CreatedGain()
    ensures var g := DecisionGain(CREATED);
            && g.ts == Some(1) && g.tools == {"keeper_pr_create", "keeper_pr_review_comment"}
            && g.docker == g.evidence
            && Item(PrCreate, "keeper_pr_create") in g.docker && Item(PrApprove, "keeper_pr_review_comment") in g.docker
  {
    var a, b := ToolCall(Some("keeper_pr_create"), true), ToolCall(Some("keeper_pr_review_comment"), true);
    assert CREATED.calls[0] == a && CREATED.calls[1] == b;
    assert a in CREATED.calls && b in CREATED.calls;
  }

  lemma PushedGain()
    ensures MetricGain(PUSHED, Some(900)) ==
            Gain(None, {"keeper_bash"}, {Item(GitPush, "keeper_bash")}, {Item(GitPush, "keeper_bash")})
  {
    StripsToItself("keeper_bash");
  }

  lemma BusyEnough()
    ensures Enough(Total([DecisionGain(CREATED), MetricGain(PUSHED, Some(900))]))
  {
    hide DecisionGain, MetricGain;
    var g, h := DecisionGain(CREATED), MetricGain(PUSHED, Some(900));
    TwoGains(g, h);
    CreatedGain();
    PushedGain();
    var a := Total([g, h]);
    assert Item(PrCreate, "keeper_pr_create") in a.docker && Item(PrCreate, "keeper_pr_create") in a.evidence;
    assert Item(PrApprove, "keeper_pr_review_comment") in a.docker * a.evidence;
    assert Item(GitPush, "keeper_bash") in a.docker * a.evidence;
  }

  lemma BusyScan()
    ensures Scanned(BUSY) == [DecisionGain(CREATED), MetricGain(PUSHED, Some(900))]
    ensures Unread(BUSY) == [CallGain(POSTED, "analyst", Some(900))]
  {
    hide Enough, Total, Flat, DecisionGain, MetricGain, CallGain;
    var g, h, k := DecisionGain(CREATED), MetricGain(PUSHED, Some(900)), CallGain(POSTED, "analyst", Some(900));
    BusyFiles();
    BusyEnough();
    OneFile(g);
    OneFile(h);
    OneFile(k);
    var n := FilesRead([g], [[h]], 0);
    assert n == 1 && [[h]][..n] == [[h]];
    assert [g] + [h] == [g, h];
    assert MetricsRead(BUSY) == [g, h];
    assert AllGains(BUSY) == [g, h] + [k];
  }

  /** On these logs, read as the audit reads them, the scan misses the board post of 950: the tool is gone, the verdict
      on board tools is lost, and at 1000 the keeper counts as silent for more than 100. */
  lemma BusyKeeperLooksSilent()
    ensures BUSY.minTs == Some(1000 - 100)
    ensures var a, full := Total(Scanned(BUSY)), Total(AllGains(BUSY));
            && "keeper_board_post" in full.tools && "keeper_board_post" !in a.tools
            && Uses(full.tools, BOARD_TOOLS) && !Uses(a.tools, BOARD_TOOLS)
            && full.ts == Some(950) && a.ts == Some(1)
            && Active(full, None, 1000, 100) && !Active(a, None, 1000, 100)
  {
    hide Enough, Flat, DecisionGain, MetricGain, Scanned, AllGains, Unread, PR_SURFACE_TOOLS, PR_REVIEW_MUTATION_TOOLS;
    var g, h, k := DecisionGain(CREATED), MetricGain(PUSHED, Some(900)), CallGain(POSTED, "analyst", Some(900));
    BusyScan();
    AllIsScannedAndUnread(BUSY);
    TwoGains(g, h);
    CreatedGain();
    PushedGain();
    assert ([g, h] + [k])[..2] == [g, h];
    assert Total([g, h] + [k]) == Add(Total([g, h]), k);
    assert k == Gain(Some(950), {"keeper_board_post"}, {}, {});
    assert "keeper_board_post" in Total(AllGains(BUSY)).tools * BOARD_TOOLS;
  }
}
