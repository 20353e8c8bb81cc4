/** The audit's lifecycle answers and tools, read off the rows of the logs. */
module EvidenceRows {
  import opened EvidenceScan
  import opened EvidenceVerdicts
  import opened Lists
  import opened Text

  // ---- what one row shows ----

  // A decision row reports the tool's success, of itself or in one of its calls.
  ghost predicate SaysOk(r: DecisionRow, name: string) {
    || (r.tool == Some(name) && r.ok == Some(true))
    || (r.tool != Some(name) && exists c :: c in r.calls && c.name == Some(name) && c.ok)
  }

  ghost predicate IsShell(tool: Option<string>) {
    tool == Some("keeper_bash") || tool == Some("keeper_shell")
  }

  // A create is a successful create tool, or a successful shell run marked as one; decision rows never show a push.
  ghost predicate DecisionShows(r: DecisionRow, k: Kind) {
    r.mentionsRun &&
    match k
    case PrCreate =>
      || SaysOk(r, "keeper_pr_create")
      || (r.toolExec && IsShell(r.tool) && r.createMarker && (r.ok == Some(true) || (r.ok.None? && r.outcomeSuccess)))
    case GitPush => false
    case PrApprove => SaysOk(r, "keeper_pr_review_comment") && r.approveMarker
  }

  ghost predicate MetricShows(r: MetricRow, k: Kind) {
    r.mentionsRun && r.success &&
    match k
    case PrCreate => r.event.WorkAction? && r.action == Some("PR_CREATE")
    case GitPush => r.event.WorkAction? && r.action == Some("GIT_PUSH")
    case PrApprove => r.event.ReviewAction? && r.action == Some("APPROVE")
  }

  ghost predicate CallShows(r: CallRow, k: Kind) {
    var shell := IsShell(r.tool) || r.tool == Some("masc_code_shell");
    r.mentionsRun && r.success &&
    match k
    case PrCreate => r.tool == Some("keeper_pr_create") || (shell && exists c :: c in r.commands && c.prCreate)
    case GitPush =>
      || (r.tool == Some("masc_code_git") && exists c :: c in r.commands && c.barePush)
      || (shell && exists c :: c in r.commands && c.gitPush)
    case PrApprove => shell && exists c :: c in r.commands && c.prApprove
  }

  // A row without a time is never too old.
  ghost predicate Current(ts: Option<int>, minTs: Option<int>) {
    ts.None? || minTs.None? || ts.value >= minTs.value
  }

  // Some row that counts shows it, in docker if that is asked.
  ghost predicate Shown(l: Logs, k: Kind, inDocker: bool) {
    || (exists f, r :: f in l.decisions && r in f && DecisionShows(r, k) && (inDocker ==> r.docker))
    || (exists f, r :: f in l.metrics && r in f && Current(r.ts, l.minTs) && MetricShows(r, k)
                       && (inDocker ==> r.docker))
    || (exists f, r :: f in l.calls && r in f && r.keeper == l.name && Current(r.ts, l.minTs) && CallShows(r, k)
                       && (inDocker ==> r.docker))
  }

  // Some row that counts names the tool.
  ghost predicate Named(l: Logs, t: string) {
    || (exists f, r :: f in l.decisions && r in f
                       && (r.tool == Some(t) || t in r.used || exists c :: c in r.calls && c.name == Some(t)))
    || (exists f, r :: f in l.metrics && r in f && Current(r.ts, l.minTs)
                       && (r.workSource == Some(t) || r.toolName == Some(t) || r.tool == Some(t)))
    || (exists f, r :: f in l.calls && r in f && r.keeper == l.name && Current(r.ts, l.minTs) && r.tool == Some(t))
  }

  // Some row that counts is at least as late as t.
  ghost predicate Reached(l: Logs, t: int) {
    || (exists f, r :: f in l.decisions && r in f && NotBefore(r.ts, t))
    || (exists f, r :: f in l.metrics && r in f && Current(r.ts, l.minTs) && NotBefore(r.ts, t))
    || (exists f, r :: f in l.calls && r in f && r.keeper == l.name && Current(r.ts, l.minTs) && NotBefore(r.ts, t))
  }

  // ---- the gain of one row ----

  lemma DecisionItems(r: DecisionRow, k: Kind)
    ensures Has(DecisionEvidence(r), k) && r.mentionsRun <==> DecisionShows(r, k)
  {
    var items := DecisionEvidence(r);
    assert ToolSucceeded(r, "keeper_pr_create") <==> SaysOk(r, "keeper_pr_create");
    assert ToolSucceeded(r, "keeper_pr_review_comment") <==> SaysOk(r, "keeper_pr_review_comment");
    hide SaysOk, ToolSucceeded;
    match k {
      case PrCreate =>
        if r.mentionsRun && SaysOk(r, "keeper_pr_create") {
          assert Item(PrCreate, "keeper_pr_create") in items;
        } else if DecisionShows(r, k) {
          assert Item(PrCreate, r.tool.value + ":gh_pr_create") in items;
        }
      case GitPush =>
      case PrApprove =>
        if DecisionShows(r, k) {
          assert Item(PrApprove, "keeper_pr_review_comment") in items;
        }
    }
  }

  lemma MetricItems(r: MetricRow, k: Kind)
    ensures Has(MetricEvidence(r), k) && r.mentionsRun <==> MetricShows(r, k)
  {
    hide MetricSource;
    var items := MetricEvidence(r);
    if MetricShows(r, k) {
      assert Item(k, MetricSource(r)) in items;
    }
  }

  lemma CallItems(r: CallRow, k: Kind)
    ensures Has(CallEvidence(r), k) && r.mentionsRun <==> CallShows(r, k)
  {
    var items := CallEvidence(r);
    if CallShows(r, k) {
      if r.tool == Some("keeper_pr_create") || r.tool == Some("masc_code_git") {
        assert Item(k, r.tool.value) in items;
      } else {
        var c :| c in r.commands && (k == PrCreate ==> c.prCreate) && (k == GitPush ==> c.gitPush)
                 && (k == PrApprove ==> c.prApprove);
        assert Item(k, r.tool.value) in CommandEvidence(c, r.tool.value);
        assert Item(k, r.tool.value) in items;
      }
    }
  }

  // The work source, the tool's name and the tool are tried in this order.
  lemma MetricSourceIsFirst(r: MetricRow)
    ensures var fields := [r.workSource, r.toolName, r.tool];
            || (MetricSource(r) == "pr_action_metrics" && forall i :: 0 <= i < 3 ==> !Nonblank(fields[i]))
            || exists i :: 0 <= i < 3 && Nonblank(fields[i]) && MetricSource(r) == Strip(fields[i].value)
                           && forall j :: 0 <= j < i ==> !Nonblank(fields[j])
  {
    hide Strip;
    var fields := [r.workSource, r.toolName, r.tool];
    assert Nonblank(fields[0]) || Nonblank(fields[1]) || Nonblank(fields[2]) || MetricSource(r) == "pr_action_metrics";
  }

  lemma DecisionGainSays(r: DecisionRow)
    ensures forall k :: (Has(DecisionGain(r).evidence, k) <==> DecisionShows(r, k))
                        && (Has(DecisionGain(r).docker, k) <==> DecisionShows(r, k) && r.docker)
    ensures forall t :: t in DecisionGain(r).tools <==>
              r.tool == Some(t) || t in r.used || exists c :: c in r.calls && c.name == Some(t)
    ensures DecisionGain(r).ts == r.ts
  {
    hide DecisionEvidence, DecisionShows;
    forall k
      ensures Has(DecisionEvidence(r), k) && r.mentionsRun <==> DecisionShows(r, k)
    {
      DecisionItems(r, k);
    }
  }

  lemma MetricGainSays(r: MetricRow, minTs: Option<int>)
    ensures forall k :: (Has(MetricGain(r, minTs).evidence, k) <==> Current(r.ts, minTs) && MetricShows(r, k))
                        && (Has(MetricGain(r, minTs).docker, k) <==>
                            Current(r.ts, minTs) && MetricShows(r, k) && r.docker)
    ensures forall t :: t in MetricGain(r, minTs).tools <==>
              Current(r.ts, minTs) && (r.workSource == Some(t) || r.toolName == Some(t) || r.tool == Some(t))
    ensures MetricGain(r, minTs).ts == if Current(r.ts, minTs) then r.ts else None
  {
    hide MetricEvidence, MetricShows;
    forall k
      ensures Has(MetricEvidence(r), k) && r.mentionsRun <==> MetricShows(r, k)
    {
      MetricItems(r, k);
    }
  }

  lemma CallGainSays(r: CallRow, name: string, minTs: Option<int>)
    ensures forall k :: (Has(CallGain(r, name, minTs).evidence, k) <==>
                         r.keeper == name && Current(r.ts, minTs) && CallShows(r, k))
                        && (Has(CallGain(r, name, minTs).docker, k) <==>
                            r.keeper == name && Current(r.ts, minTs) && CallShows(r, k) && r.docker)
    ensures forall t :: t in CallGain(r, name, minTs).tools <==>
              r.keeper == name && Current(r.ts, minTs) && r.tool == Some(t)
    ensures CallGain(r, name, minTs).ts == if r.keeper == name && Current(r.ts, minTs) then r.ts else None
  {
    hide CallEvidence, CallShows;
    forall k
      ensures Has(CallEvidence(r), k) && r.mentionsRun <==> CallShows(r, k)
    {
      CallItems(r, k);
    }
  }

  // ---- the gains of all rows ----

  // The gain of some row of the logs.
  ghost predicate OfSomeRow(l: Logs, g: Gain) {
    || (exists f, r :: f in l.decisions && r in f && g == DecisionGain(r))
    || (exists f, r :: f in l.metrics && r in f && g == MetricGain(r, l.minTs))
    || (exists f, r :: f in l.calls && r in f && g == CallGain(r, l.name, l.minTs))
  }

  lemma GainsAreOfRows(l: Logs)
    ensures forall g :: g in AllGains(l) <==> OfSomeRow(l, g)
  {
    hide Flat, DecisionFiles, MetricFiles, CallFiles, DecisionGain, MetricGain, CallGain;
    DecisionFilesAre(l);
    MetricFilesAre(l);
    CallFilesAre(l);
  }

  lemma DecisionFilesAre(l: Logs)
    ensures forall g :: g in Flat(DecisionFiles(l)) <==>
            exists f, r :: f in l.decisions && r in f && g == DecisionGain(r)
  {
    hide Flat, DecisionGain;
    FlatMembers(DecisionFiles(l));
    forall f, r | f in l.decisions && r in f
      ensures DecisionGain(r) in Flat(DecisionFiles(l))
    {
      var i :| 0 <= i < |l.decisions| && l.decisions[i] == f;
      var j :| 0 <= j < |f| && f[j] == r;
      assert DecisionGains(f)[j] == DecisionGain(r);
      assert DecisionGain(r) in DecisionFiles(l)[i];
    }
    forall g | g in Flat(DecisionFiles(l))
      ensures exists f, r :: f in l.decisions && r in f && g == DecisionGain(r)
    {
      var r := DecisionGainOf(l, g);
    }
  }

  lemma MetricFilesAre(l: Logs)
    ensures forall g :: g in Flat(MetricFiles(l)) <==>
              exists f, r :: f in l.metrics && r in f && g == MetricGain(r, l.minTs)
  {
    hide Flat, MetricGain;
    FlatMembers(MetricFiles(l));
    forall f, r | f in l.metrics && r in f
      ensures MetricGain(r, l.minTs) in Flat(MetricFiles(l))
    {
      var i :| 0 <= i < |l.metrics| && l.metrics[i] == f;
      var j :| 0 <= j < |f| && f[j] == r;
      assert MetricGains(f, l.minTs)[j] == MetricGain(r, l.minTs);
      assert MetricGain(r, l.minTs) in MetricFiles(l)[i];
    }
    forall g | g in Flat(MetricFiles(l))
      ensures exists f, r :: f in l.metrics && r in f && g == MetricGain(r, l.minTs)
    {
      var r := MetricGainOf(l, g);
    }
  }

  lemma CallFilesAre(l: Logs)
    ensures forall g :: g in Flat(CallFiles(l)) <==>
              exists f, r :: f in l.calls && r in f && g == CallGain(r, l.name, l.minTs)
  {
    hide Flat, CallGain;
    FlatMembers(CallFiles(l));
    forall f, r | f in l.calls && r in f
      ensures CallGain(r, l.name, l.minTs) in Flat(CallFiles(l))
    {
      var i :| 0 <= i < |l.calls| && l.calls[i] == f;
      var j :| 0 <= j < |f| && f[j] == r;
      assert CallGains(f, l.name, l.minTs)[j] == CallGain(r, l.name, l.minTs);
      assert CallGain(r, l.name, l.minTs) in CallFiles(l)[i];
    }
    forall g | g in Flat(CallFiles(l))
      ensures exists f, r :: f in l.calls && r in f && g == CallGain(r, l.name, l.minTs)
    {
      var r := CallGainOf(l, g);
    }
  }

  lemma TotalHas(gs: seq<Gain>, k: Kind)
    ensures Has(Total(gs).evidence, k) <==> exists g :: g in gs && Has(g.evidence, k)
    ensures Has(Total(gs).docker, k) <==> exists g :: g in gs && Has(g.docker, k)
  {
    hide Total;
    TotalNames(gs);
    if Has(Total(gs).evidence, k) {
      var x :| x in Total(gs).evidence && x.kind == k;
      var g :| g in gs && x in g.evidence;
      assert Has(g.evidence, k);
    }
    if Has(Total(gs).docker, k) {
      var x :| x in Total(gs).docker && x.kind == k;
      var g :| g in gs && x in g.docker;
      assert Has(g.docker, k);
    }
    if g :| g in gs && Has(g.evidence, k) {
      var x :| x in g.evidence && x.kind == k;
      assert NamesItem(gs, x);
    }
    if g :| g in gs && Has(g.docker, k) {
      var x :| x in g.docker && x.kind == k;
      assert NamesDocker(gs, x);
    }
  }

  lemma RowsSay(l: Logs)
    ensures forall r, k :: Has(DecisionGain(r).evidence, k) <==> DecisionShows(r, k)
    ensures forall r, k :: Has(DecisionGain(r).docker, k) <==> DecisionShows(r, k) && r.docker
    ensures forall r, k :: Has(MetricGain(r, l.minTs).evidence, k) <==> Current(r.ts, l.minTs) && MetricShows(r, k)
    ensures forall r, k :: Has(MetricGain(r, l.minTs).docker, k) <==>
              Current(r.ts, l.minTs) && MetricShows(r, k) && r.docker
    ensures forall r, k :: Has(CallGain(r, l.name, l.minTs).evidence, k) <==>
              r.keeper == l.name && Current(r.ts, l.minTs) && CallShows(r, k)
    ensures forall r, k :: Has(CallGain(r, l.name, l.minTs).docker, k) <==>
              r.keeper == l.name && Current(r.ts, l.minTs) && CallShows(r, k) && r.docker
  {
    hide *;
    forall r, k
      ensures Has(DecisionGain(r).evidence, k) <==> DecisionShows(r, k)
      ensures Has(DecisionGain(r).docker, k) <==> DecisionShows(r, k) && r.docker
    {
      DecisionGainSays(r);
    }
    forall r, k
      ensures Has(MetricGain(r, l.minTs).evidence, k) <==> Current(r.ts, l.minTs) && MetricShows(r, k)
      ensures Has(MetricGain(r, l.minTs).docker, k) <==> Current(r.ts, l.minTs) && MetricShows(r, k) && r.docker
    {
      MetricGainSays(r, l.minTs);
    }
    forall r, k
      ensures Has(CallGain(r, l.name, l.minTs).evidence, k) <==>
              r.keeper == l.name && Current(r.ts, l.minTs) && CallShows(r, k)
      ensures Has(CallGain(r, l.name, l.minTs).docker, k) <==>
              r.keeper == l.name && Current(r.ts, l.minTs) && CallShows(r, k) && r.docker
    {
      CallGainSays(r, l.name, l.minTs);
    }
  }

  // An exhaustive scan answers by the rows.
  lemma TotalShows(l: Logs, k: Kind)
    ensures Has(Total(AllGains(l)).evidence, k) <==> Shown(l, k, false)
    ensures Has(Total(AllGains(l)).docker, k) <==> Shown(l, k, true)
  {
    hide Total, AllGains, Has, DecisionGain, MetricGain, CallGain, DecisionShows, MetricShows, CallShows, Current;
    TotalHas(AllGains(l), k);
    GainsAreOfRows(l);
    RowsSay(l);
  }

  lemma TotalNamed(l: Logs, t: string)
    ensures t in Total(AllGains(l)).tools <==> Named(l, t)
  {
    hide Total, AllGains, DecisionGain, MetricGain, CallGain, Current;
    TotalNames(AllGains(l));
    GainsAreOfRows(l);
    forall r
      ensures t in DecisionGain(r).tools <==>
              r.tool == Some(t) || t in r.used || exists c :: c in r.calls && c.name == Some(t)
    {
      DecisionGainSays(r);
    }
    forall r
      ensures t in MetricGain(r, l.minTs).tools <==>
              Current(r.ts, l.minTs) && (r.workSource == Some(t) || r.toolName == Some(t) || r.tool == Some(t))
    {
      MetricGainSays(r, l.minTs);
    }
    forall r
      ensures t in CallGain(r, l.name, l.minTs).tools <==>
              r.keeper == l.name && Current(r.ts, l.minTs) && r.tool == Some(t)
    {
      CallGainSays(r, l.name, l.minTs);
    }
  }

  lemma TotalReaches(l: Logs, t: int)
    ensures NotBefore(Total(AllGains(l)).ts, t) <==> Reached(l, t)
  {
    hide Total, AllGains, DecisionGain, MetricGain, CallGain, Current;
    TotalNames(AllGains(l));
    GainsAreOfRows(l);
    forall r
      ensures DecisionGain(r).ts == r.ts
    {
      DecisionGainSays(r);
    }
    forall r
      ensures MetricGain(r, l.minTs).ts == if Current(r.ts, l.minTs) then r.ts else None
    {
      MetricGainSays(r, l.minTs);
    }
    forall r
      ensures CallGain(r, l.name, l.minTs).ts == if r.keeper == l.name && Current(r.ts, l.minTs) then r.ts else None
    {
      CallGainSays(r, l.name, l.minTs);
    }
  }

  /** The scan as the audit uses it. Its six answers, a create, a push and an approval, anywhere and in docker, are
      those of all the rows, though it may leave some unread. Some row names each tool and reaches its time. */
  method AuditLifecycle(l: Logs) returns (a: Gain)
    ensures a == Total(Scanned(l)) && SameSixAnswers(a, Total(AllGains(l)))
    ensures forall k :: (exists x :: x in a.evidence && x.kind == k) <==> Shown(l, k, false)
    ensures forall k :: (exists x :: x in a.docker && x.kind == k) <==> Shown(l, k, true)
    ensures a.docker <= a.evidence <= Total(AllGains(l)).evidence && a.docker <= Total(AllGains(l)).docker
    ensures forall t :: t in a.tools ==> Named(l, t)
    ensures a.ts.Some? ==> Reached(l, a.ts.value)
  {
    hide Scanned, AllGains, Total, Enough, SameSixAnswers, Shown, Named, Reached;
    a := ScanKeeperEvidence(l);
    ScannedIsPrefix(l);
    AllRowByRow(l);
    EarlyExitAnswersAlike(AllGains(l), Scanned(l));
    AnswersShown(l, a);
    ToolsNamed(l, a);
    TimeReached(l, a);
  }

  lemma AnswersShown(l: Logs, a: Gain)
    requires SameSixAnswers(a, Total(AllGains(l)))
    ensures forall k :: Has(a.evidence, k) <==> Shown(l, k, false)
    ensures forall k :: Has(a.docker, k) <==> Shown(l, k, true)
  {
    hide Total, AllGains, Shown, Has;
    forall k
      ensures Has(a.evidence, k) <==> Shown(l, k, false)
      ensures Has(a.docker, k) <==> Shown(l, k, true)
    {
      TotalShows(l, k);
    }
  }

  lemma ToolsNamed(l: Logs, a: Gain)
    requires a == Total(Scanned(l))
    ensures forall t :: t in a.tools ==> Named(l, t)
  {
    hide Total, AllGains, Scanned, Unread, Named;
    AllIsScannedAndUnread(l);
    TotalNames(Scanned(l));
    TotalNames(AllGains(l));
    NamesConcat(Scanned(l), Unread(l));
    forall t | t in a.tools
      ensures Named(l, t)
    {
      TotalNamed(l, t);
    }
  }

  lemma TimeReached(l: Logs, a: Gain)
    requires a == Total(Scanned(l))
    ensures a.ts.Some? ==> Reached(l, a.ts.value)
  {
    hide Total, AllGains, Scanned, Unread, Reached;
    if a.ts.Some? {
      AllIsScannedAndUnread(l);
      TotalNames(Scanned(l));
      TotalNames(AllGains(l));
      NamesConcat(Scanned(l), Unread(l));
      assert NotBefore(a.ts, a.ts.value);
      TotalReaches(l, a.ts.value);
    }
  }
}
