/** The keeper evidence scan of the fleet audit, with its early exits, against an exhaustive scan. */
module EvidenceScan {
  import opened Lists
  import opened Text

  datatype Kind = PrCreate | GitPush | PrApprove

  // An evidence string: the lifecycle prefix and what follows it.
  datatype Item = Item(kind: Kind, source: string)

  const SHELL_TOOLS := {"keeper_bash", "keeper_shell"}

  // ---- rows, reduced to what the scan reads of them ----

  // An entry of a decision row's tool_calls, and whether its outcome is "ok".
  datatype ToolCall = ToolCall(name: Option<string>, ok: bool)

  // A field of the wrong type is absent. The tools used are those of the row and of its contract.
  datatype DecisionRow = DecisionRow(
    ts: Option<int>, tool: Option<string>, ok: Option<bool>, outcomeSuccess: bool, used: set<string>,
    calls: seq<ToolCall>, toolExec: bool, mentionsRun: bool, docker: bool, createMarker: bool, approveMarker: bool)

  datatype MetricEvent = WorkAction | ReviewAction | OtherEvent

  // The action is in upper case.
  datatype MetricRow = MetricRow(
    ts: Option<int>, workSource: Option<string>, toolName: Option<string>, tool: Option<string>, mentionsRun: bool,
    docker: bool, event: MetricEvent, success: bool, action: Option<string>)

  // One command a tool call may have run, as the recognisers classify it.
  datatype Command = Command(barePush: bool, gitPush: bool, prCreate: bool, prApprove: bool)

  datatype CallRow = CallRow(
    keeper: string, ts: Option<int>, tool: Option<string>, mentionsRun: bool, docker: bool, success: bool,
    commands: seq<Command>)

  // What one row adds: its time, its tools, its evidence and the part of it that ran in docker.
  datatype Gain = Gain(ts: Option<int>, tools: set<string>, evidence: set<Item>, docker: set<Item>)

  const NOTHING := Gain(None, {}, {}, {})

  function WithDocker(evidence: set<Item>, docker: bool): (set<Item>, set<Item>) {
    (evidence, if docker then evidence else {})
  }

  function Given(field: Option<string>): set<string> {
    if field.Some? then {field.value} else {}
  }

  // tools_from_decision
  function DecisionTools(r: DecisionRow): set<string> {
    Given(r.tool) + r.used + set c | c in r.calls && c.name.Some? :: c.name.value
  }

  // tool_succeeded_in_row
  predicate ToolSucceeded(r: DecisionRow, name: string) {
    if r.tool == Some(name) then r.ok == Some(true)
    else exists c :: c in r.calls && c.name == Some(name) && c.ok
  }

  // row_success
  predicate RowSuccess(r: DecisionRow) {
    if r.ok.Some? then r.ok.value else r.outcomeSuccess
  }

  function DecisionEvidence(r: DecisionRow): set<Item> {
    (if ToolSucceeded(r, "keeper_pr_create") then {Item(PrCreate, "keeper_pr_create")} else {})
    + (if r.toolExec && r.tool.Some? && r.tool.value in SHELL_TOOLS && RowSuccess(r) && r.createMarker
       then {Item(PrCreate, r.tool.value + ":gh_pr_create")} else {})
    + (if ToolSucceeded(r, "keeper_pr_review_comment") && r.approveMarker
       then {Item(PrApprove, "keeper_pr_review_comment")} else {})
  }

  // tools_from_action_metric
  function MetricTools(r: MetricRow): set<string> {
    Given(r.workSource) + Given(r.toolName) + Given(r.tool)
  }

  predicate Nonblank(field: Option<string>) {
    field.Some? && Strip(field.value) != ""
  }

  // metric_source
  function MetricSource(r: MetricRow): string {
    if Nonblank(r.workSource) then Strip(r.workSource.value)
    else if Nonblank(r.toolName) then Strip(r.toolName.value)
    else if Nonblank(r.tool) then Strip(r.tool.value)
    else "pr_action_metrics"
  }

  function MetricEvidence(r: MetricRow): set<Item> {
    if !r.success || r.action.None? then {}
    else match r.event
      case WorkAction =>
        if r.action.value == "PR_CREATE" then {Item(PrCreate, MetricSource(r))}
        else if r.action.value == "GIT_PUSH" then {Item(GitPush, MetricSource(r))}
        else {}
      case ReviewAction => if r.action.value == "APPROVE" then {Item(PrApprove, MetricSource(r))} else {}
      case OtherEvent => {}
  }

  function CommandEvidence(c: Command, tool: string): set<Item> {
    (if c.gitPush then {Item(GitPush, tool)} else {})
    + (if c.prCreate then {Item(PrCreate, tool)} else {})
    + (if c.prApprove then {Item(PrApprove, tool)} else {})
  }

  ghost function CallEvidence(r: CallRow): set<Item> {
    if r.tool.None? || !r.success then {}
    else if r.tool.value == "keeper_pr_create" then {Item(PrCreate, "keeper_pr_create")}
    else if r.tool.value == "masc_code_git" then
      if exists c :: c in r.commands && c.barePush then {Item(GitPush, "masc_code_git")} else {}
    else if r.tool.value in SHELL_TOOLS || r.tool.value == "masc_code_shell" then
      set c, x | c in r.commands && x in CommandEvidence(c, r.tool.value) :: x
    else {}
  }

  // pr_lifecycle_evidence_from_tool_call: the loop over the commands, with its break.
  method EvidenceFromToolCall(r: CallRow) returns (evidence: set<Item>, docker: set<Item>)
    ensures evidence == CallEvidence(r) && docker == if r.docker then evidence else {}
  {
    evidence := {};
    if r.tool.Some? && r.success {
      var tool := r.tool.value;
      if tool == "keeper_pr_create" {
        evidence := {Item(PrCreate, "keeper_pr_create")};
      } else if tool == "masc_code_git" {
        for i := 0 to |r.commands|
          invariant evidence == {}
          invariant forall c :: c in r.commands[..i] ==> !c.barePush
        {
          if r.commands[i].barePush {
            evidence := {Item(GitPush, "masc_code_git")};
            assert r.commands[i] in r.commands;
            break;
          }
          assert r.commands[..i + 1] == r.commands[..i] + [r.commands[i]];
        }
        assert r.commands[..|r.commands|] == r.commands;
      } else if tool in SHELL_TOOLS || tool == "masc_code_shell" {
        for i := 0 to |r.commands|
          invariant evidence == set c, x | c in r.commands[..i] && x in CommandEvidence(c, tool) :: x
        {
          assert r.commands[..i + 1] == r.commands[..i] + [r.commands[i]];
          evidence := evidence + CommandEvidence(r.commands[i], tool);
        }
        assert r.commands[..|r.commands|] == r.commands;
      }
    }
    docker := if r.docker then evidence else {};
  }

  predicate TooOld(ts: Option<int>, minTs: Option<int>) {
    minTs.Some? && ts.Some? && ts.value < minTs.value
  }

  function DecisionGain(r: DecisionRow): Gain {
    var (e, d) := WithDocker(DecisionEvidence(r), r.docker);
    Gain(r.ts, DecisionTools(r), if r.mentionsRun then e else {}, if r.mentionsRun then d else {})
  }

  function MetricGain(r: MetricRow, minTs: Option<int>): Gain {
    if TooOld(r.ts, minTs) then NOTHING else
      var (e, d) := WithDocker(MetricEvidence(r), r.docker);
      Gain(r.ts, MetricTools(r), if r.mentionsRun then e else {}, if r.mentionsRun then d else {})
  }

  ghost function CallGain(r: CallRow, name: string, minTs: Option<int>): Gain {
    if r.keeper != name || TooOld(r.ts, minTs) then NOTHING else
      var (e, d) := WithDocker(CallEvidence(r), r.docker);
      Gain(r.ts, if r.tool.Some? then {r.tool.value} else {}, if r.mentionsRun then e else {},
           if r.mentionsRun then d else {})
  }

  // ---- accumulation ----

  function Later(a: Option<int>, b: Option<int>): Option<int> {
    if a.None? then b else if b.None? then a else Some(if a.value >= b.value then a.value else b.value)
  }

  function Add(a: Gain, g: Gain): Gain {
    Gain(Later(a.ts, g.ts), a.tools + g.tools, a.evidence + g.evidence, a.docker + g.docker)
  }

  ghost function Total(gs: seq<Gain>): Gain {
    if gs == [] then NOTHING else Add(Total(gs[..|gs| - 1]), gs[|gs| - 1])
  }

  ghost predicate Has(items: set<Item>, k: Kind) {
    exists x :: x in items && x.kind == k
  }

  // complete_lifecycle_evidence
  ghost predicate CompleteEvidence(items: set<Item>) {
    Has(items, PrCreate) && Has(items, GitPush) && Has(items, PrApprove)
  }

  method IsComplete(items: set<Item>) returns (b: bool)
    ensures b <==> CompleteEvidence(items)
  {
    b := (exists x :: x in items && x.kind == PrCreate) && (exists x :: x in items && x.kind == GitPush) &&
         (exists x :: x in items && x.kind == PrApprove);
  }

  // The early exit's condition, evidence and docker evidence both complete.
  ghost predicate Enough(a: Gain) {
    CompleteEvidence(a.evidence) && CompleteEvidence(a.docker)
  }

  method HaveEnough(a: Gain) returns (b: bool)
    ensures b <==> Enough(a)
  {
    var e := IsComplete(a.evidence);
    var d := IsComplete(a.docker);
    b := e && d;
  }

  // ---- files ----

  // The gains of a file, row by row.
  ghost function DecisionGains(rows: seq<DecisionRow>): seq<Gain> {
    seq(|rows|, i requires 0 <= i < |rows| => DecisionGain(rows[i]))
  }

  ghost function MetricGains(rows: seq<MetricRow>, minTs: Option<int>): seq<Gain> {
    seq(|rows|, i requires 0 <= i < |rows| => MetricGain(rows[i], minTs))
  }

  ghost function CallGains(rows: seq<CallRow>, name: string, minTs: Option<int>): seq<Gain> {
    seq(|rows|, i requires 0 <= i < |rows| => CallGain(rows[i], name, minTs))
  }

  // The logs the scan may read: the files of each kind in order, and what the rows are compared with.
  datatype Logs = Logs(
    decisions: seq<seq<DecisionRow>>, metrics: seq<seq<MetricRow>>, calls: seq<seq<CallRow>>,
    name: string, minTs: Option<int>)

  ghost function DecisionFiles(l: Logs): seq<seq<Gain>> {
    seq(|l.decisions|, i requires 0 <= i < |l.decisions| => DecisionGains(l.decisions[i]))
  }

  ghost function MetricFiles(l: Logs): seq<seq<Gain>> {
    seq(|l.metrics|, i requires 0 <= i < |l.metrics| => MetricGains(l.metrics[i], l.minTs))
  }

  ghost function CallFiles(l: Logs): seq<seq<Gain>> {
    seq(|l.calls|, i requires 0 <= i < |l.calls| => CallGains(l.calls[i], l.name, l.minTs))
  }

  ghost function Flat(files: seq<seq<Gain>>): seq<Gain> {
    if files == [] then [] else Flat(files[..|files| - 1]) + files[|files| - 1]
  }

  // Everything there is to find, decision logs first, then metrics, then tool calls.
  ghost function AllGains(l: Logs): seq<Gain> {
    Flat(DecisionFiles(l)) + Flat(MetricFiles(l)) + Flat(CallFiles(l))
  }

  // How many of the files are read after `before`, when i have been: up to the first after which there is enough.
  ghost function FilesRead(before: seq<Gain>, files: seq<seq<Gain>>, i: nat): (n: nat)
    requires i <= |files|
    ensures i <= n <= |files| && (i < |files| ==> i < n)
    ensures forall j :: i < j < n ==> !Enough(Total(before + Flat(files[..j])))
    ensures n < |files| ==> Enough(Total(before + Flat(files[..n])))
    decreases |files| - i
  {
    if i == |files| then i
    else if Enough(Total(before + Flat(files[..i + 1]))) then i + 1
    else FilesRead(before, files, i + 1)
  }

  // What is read before the tool-call logs.
  ghost function MetricsRead(l: Logs): seq<Gain> {
    var before := Flat(DecisionFiles(l));
    before + Flat(MetricFiles(l)[..FilesRead(before, MetricFiles(l), 0)])
  }

  // What the scan reads: tool-call logs only if the others were not enough.
  ghost function Scanned(l: Logs): seq<Gain> {
    var logs := MetricsRead(l);
    if Enough(Total(logs)) then logs else logs + Flat(CallFiles(l)[..FilesRead(logs, CallFiles(l), 0)])
  }

  lemma {:induction false} TotalConcat(a: seq<Gain>, b: seq<Gain>)
    ensures b != [] ==> Total(a + b) == Add(Total(a + b[..|b| - 1]), b[|b| - 1])
    ensures b == [] ==> Total(a + b) == Total(a)
  {
    if b == [] {
      assert a + b == a;
    } else {
      assert (a + b)[..|a + b| - 1] == a + b[..|b| - 1];
    }
  }

  // One row of each kind.
  method AddDecisionRow(r: DecisionRow, a: Gain) returns (b: Gain)
    ensures b == Add(a, DecisionGain(r))
  {
    hide DecisionEvidence, DecisionTools;
    b := a.(ts := Later(a.ts, r.ts), tools := a.tools + DecisionTools(r));
    if r.mentionsRun {
      var evidence := DecisionEvidence(r);
      b := b.(evidence := b.evidence + evidence, docker := b.docker + if r.docker then evidence else {});
    }
  }

  method AddMetricRow(r: MetricRow, minTs: Option<int>, a: Gain) returns (b: Gain)
    ensures b == Add(a, MetricGain(r, minTs))
  {
    hide MetricEvidence, MetricTools;
    if TooOld(r.ts, minTs) {
      return a;
    }
    b := a.(ts := Later(a.ts, r.ts), tools := a.tools + MetricTools(r));
    if r.mentionsRun {
      var evidence := MetricEvidence(r);
      b := b.(evidence := b.evidence + evidence, docker := b.docker + if r.docker then evidence else {});
    }
  }

  method AddCallRow(r: CallRow, name: string, minTs: Option<int>, a: Gain) returns (b: Gain)
    ensures b == Add(a, CallGain(r, name, minTs))
  {
    hide CallEvidence;
    if r.keeper != name || TooOld(r.ts, minTs) {
      return a;
    }
    b := a.(ts := Later(a.ts, r.ts), tools := a.tools + if r.tool.Some? then {r.tool.value} else {});
    if r.mentionsRun {
      var evidence, docker := EvidenceFromToolCall(r);
      b := b.(evidence := b.evidence + evidence, docker := b.docker + docker);
    }
  }

  // One file of each kind, added row by row to what is already there.
  method ScanDecisions(rows: seq<DecisionRow>, a: Gain, ghost before: seq<Gain>) returns (b: Gain)
    requires a == Total(before)
    ensures b == Total(before + DecisionGains(rows))
  {
    hide Total, Add, DecisionGain;
    b := a;
    assert before + [] == before;
    for i := 0 to |rows|
      invariant b == Total(before + DecisionGains(rows)[..i])
    {
      ghost var gs := DecisionGains(rows)[..i + 1];
      assert gs[..|gs| - 1] == DecisionGains(rows)[..i];
      TotalConcat(before, gs);
      b := AddDecisionRow(rows[i], b);
    }
    assert DecisionGains(rows)[..|rows|] == DecisionGains(rows);
  }

  method ScanMetrics(rows: seq<MetricRow>, minTs: Option<int>, a: Gain, ghost before: seq<Gain>) returns (b: Gain)
    requires a == Total(before)
    ensures b == Total(before + MetricGains(rows, minTs))
  {
    hide Total, Add, MetricGain;
    b := a;
    assert before + [] == before;
    for i := 0 to |rows|
      invariant b == Total(before + MetricGains(rows, minTs)[..i])
    {
      ghost var gs := MetricGains(rows, minTs)[..i + 1];
      assert gs[..|gs| - 1] == MetricGains(rows, minTs)[..i];
      TotalConcat(before, gs);
      b := AddMetricRow(rows[i], minTs, b);
    }
    assert MetricGains(rows, minTs)[..|rows|] == MetricGains(rows, minTs);
  }

  method ScanCalls(rows: seq<CallRow>, name: string, minTs: Option<int>, a: Gain, ghost before: seq<Gain>)
    returns (b: Gain)
    requires a == Total(before)
    ensures b == Total(before + CallGains(rows, name, minTs))
  {
    hide Total, Add, CallGain;
    b := a;
    assert before + [] == before;
    for i := 0 to |rows|
      invariant b == Total(before + CallGains(rows, name, minTs)[..i])
    {
      ghost var gs := CallGains(rows, name, minTs)[..i + 1];
      assert gs[..|gs| - 1] == CallGains(rows, name, minTs)[..i];
      TotalConcat(before, gs);
      b := AddCallRow(rows[i], name, minTs, b);
    }
    assert CallGains(rows, name, minTs)[..|rows|] == CallGains(rows, name, minTs);
  }

  lemma FlatStep(before: seq<Gain>, files: seq<seq<Gain>>, i: nat)
    requires i < |files|
    ensures before + Flat(files[..i + 1]) == (before + Flat(files[..i])) + files[i]
  {
    assert files[..i + 1][..i] == files[..i];
  }

  lemma FlatNone(before: seq<Gain>, files: seq<seq<Gain>>)
    ensures before + Flat(files[..0]) == before
  {
  }

  /** scan_keeper_evidence: it leaves off after the first metric or tool-call file that brings enough. */
  method ScanKeeperEvidence(l: Logs) returns (a: Gain)
    ensures a == Total(Scanned(l))
  {
    hide Total, Enough, Flat, FilesRead, MetricFiles, CallFiles, DecisionFiles;
    a := ScanDecisionFiles(l);
    a := ScanMetricFiles(l, a);
    var enough := HaveEnough(a);
    if !enough {
      a := ScanCallFiles(l, a);
    }
  }

  method ScanDecisionFiles(l: Logs) returns (a: Gain)
    ensures a == Total(Flat(DecisionFiles(l)))
  {
    a := NOTHING;
    ghost var files := DecisionFiles(l);
    FlatNone([], files);
    assert a == Total([]);
    hide Total, DecisionGains, Flat;
    for i := 0 to |l.decisions|
      invariant a == Total([] + Flat(files[..i]))
    {
      a := ScanDecisions(l.decisions[i], a, [] + Flat(files[..i]));
      FlatStep([], files, i);
    }
    assert files[..|l.decisions|] == files && [] + Flat(files) == Flat(files);
  }

  // The loop over the metric files, with its break.
  method ScanMetricFiles(l: Logs, a0: Gain) returns (a: Gain)
    requires a0 == Total(Flat(DecisionFiles(l)))
    ensures a == Total(MetricsRead(l))
  {
    hide Total, Enough, MetricGains, Flat, DecisionFiles;
    a := a0;
    ghost var before, files := Flat(DecisionFiles(l)), MetricFiles(l);
    var i := 0;
    FlatNone(before, files);
    while i < |l.metrics|
      invariant i <= |files| && a == Total(before + Flat(files[..i]))
      invariant FilesRead(before, files, 0) == FilesRead(before, files, i)
    {
      a := ScanMetrics(l.metrics[i], l.minTs, a, before + Flat(files[..i]));
      FlatStep(before, files, i);
      var enough := HaveEnough(a);
      if enough {
        assert FilesRead(before, files, 0) == i + 1;
        return;
      }
      i := i + 1;
    }
  }

  // The loop over the tool-call files, with its break.
  method ScanCallFiles(l: Logs, a0: Gain) returns (a: Gain)
    requires a0 == Total(MetricsRead(l))
    ensures a == Total(MetricsRead(l) + Flat(CallFiles(l)[..FilesRead(MetricsRead(l), CallFiles(l), 0)]))
  {
    hide Total, Enough, CallGains, Flat, MetricsRead;
    a := a0;
    ghost var before, files := MetricsRead(l), CallFiles(l);
    var i := 0;
    FlatNone(before, files);
    while i < |l.calls|
      invariant i <= |files| && a == Total(before + Flat(files[..i]))
      invariant FilesRead(before, files, 0) == FilesRead(before, files, i)
    {
      a := ScanCalls(l.calls[i], l.name, l.minTs, a, before + Flat(files[..i]));
      FlatStep(before, files, i);
      var enough := HaveEnough(a);
      if enough {
        assert FilesRead(before, files, 0) == i + 1;
        return;
      }
      i := i + 1;
    }
  }

  lemma {:induction false} FlatPrefix(files: seq<seq<Gain>>, i: nat)
    requires i <= |files|
    ensures Flat(files[..i]) <= Flat(files)
    decreases |files|
  {
    if i < |files| {
      FlatPrefix(files[..|files| - 1], i);
      assert files[..|files| - 1][..i] == files[..i];
    } else {
      assert files[..i] == files;
    }
  }

  lemma PrefixConcat(a: seq<Gain>, b: seq<Gain>, c: seq<Gain>)
    requires b <= c
    ensures a + b <= a + c
  {
  }

  lemma PrefixExtends(a: seq<Gain>, b: seq<Gain>, c: seq<Gain>)
    requires a <= b
    ensures a <= b + c
  {
  }

  // What is read is a prefix of everything, and all of it unless it is enough.
  lemma ScannedIsPrefix(l: Logs)
    ensures Scanned(l) <= AllGains(l)
    ensures Scanned(l) == AllGains(l) || Enough(Total(Scanned(l)))
  {
    hide Total, Enough, Flat, MetricFiles, CallFiles, DecisionFiles;
    var d, metrics, calls := Flat(DecisionFiles(l)), MetricFiles(l), CallFiles(l);
    var m := FilesRead(d, metrics, 0);
    FlatPrefix(metrics, m);
    PrefixConcat(d, Flat(metrics[..m]), Flat(metrics));
    PrefixExtends(MetricsRead(l), d + Flat(metrics), Flat(calls));
    if !Enough(Total(MetricsRead(l))) {
      assert m == |metrics| && metrics[..m] == metrics;
      var c := FilesRead(MetricsRead(l), calls, 0);
      FlatPrefix(calls, c);
      PrefixConcat(d + Flat(metrics), Flat(calls[..c]), Flat(calls));
      assert c == |calls| ==> calls[..c] == calls;
    }
  }

  // ---- what leaving off early changes, and what it does not ----

  lemma {:induction false} TotalGrows(all: seq<Gain>, k: nat)
    requires k <= |all|
    ensures Total(all[..k]).evidence <= Total(all).evidence && Total(all[..k]).docker <= Total(all).docker
    ensures Total(all[..k]).tools <= Total(all).tools
    decreases |all|
  {
    if k < |all| {
      TotalGrows(all[..|all| - 1], k);
      assert all[..|all| - 1][..k] == all[..k];
    } else {
      assert all[..k] == all;
    }
  }

  ghost predicate RowByRow(gs: seq<Gain>) {
    forall g :: g in gs ==> g.docker <= g.evidence
  }

  lemma {:induction false} DockerWithinEvidence(gs: seq<Gain>)
    requires RowByRow(gs)
    ensures Total(gs).docker <= Total(gs).evidence
  {
    if gs != [] {
      DockerWithinEvidence(gs[..|gs| - 1]);
      assert gs[|gs| - 1] in gs;
    }
  }

  lemma {:induction false} FlatRowByRow(files: seq<seq<Gain>>)
    requires forall i :: 0 <= i < |files| ==> RowByRow(files[i])
    ensures RowByRow(Flat(files))
  {
    if files != [] {
      FlatRowByRow(files[..|files| - 1]);
    }
  }

  lemma AllRowByRow(l: Logs)
    ensures RowByRow(AllGains(l))
  {
    hide DecisionEvidence, MetricEvidence, CallEvidence, Flat;
    FlatRowByRow(DecisionFiles(l));
    FlatRowByRow(MetricFiles(l));
    FlatRowByRow(CallFiles(l));
  }

  // The six lifecycle answers: create, push and approve, anywhere and in docker.
  ghost predicate SameSixAnswers(a: Gain, b: Gain) {
    forall k :: (Has(a.evidence, k) <==> Has(b.evidence, k)) && (Has(a.docker, k) <==> Has(b.docker, k))
  }

  lemma HasMonotone(a: set<Item>, b: set<Item>, k: Kind)
    requires a <= b && Has(a, k)
    ensures Has(b, k)
  {
  }

  // A scan that stopped early, when it had enough, gives the six answers an exhaustive scan gives; its
  // evidence is part of the exhaustive evidence, and docker evidence is part of evidence in both.
  lemma {:induction false} EarlyExitAnswersAlike(all: seq<Gain>, scanned: seq<Gain>)
    requires scanned <= all && (scanned == all || Enough(Total(scanned))) && RowByRow(all)
    ensures SameSixAnswers(Total(scanned), Total(all))
    ensures Total(scanned).evidence <= Total(all).evidence && Total(scanned).docker <= Total(all).docker
    ensures Total(scanned).docker <= Total(scanned).evidence
  {
    TotalGrows(all, |scanned|);
    assert all[..|scanned|] == scanned;
    assert RowByRow(scanned) by {
      assert forall g :: g in scanned ==> g in all;
    }
    DockerWithinEvidence(scanned);
    hide Has, Total, RowByRow;
    if scanned != all {
      forall k
        ensures Has(Total(scanned).evidence, k) && Has(Total(scanned).docker, k)
        ensures Has(Total(all).evidence, k) && Has(Total(all).docker, k)
      {
        match k {
          case PrCreate =>
          case GitPush =>
          case PrApprove =>
        }
        HasMonotone(Total(scanned).evidence, Total(all).evidence, k);
        HasMonotone(Total(scanned).docker, Total(all).docker, k);
      }
    }
  }

  // Docker evidence alone decides when to stop.
  lemma DockerDecidesEnough(gs: seq<Gain>)
    requires RowByRow(gs)
    ensures Enough(Total(gs)) <==> CompleteEvidence(Total(gs).docker)
  {
    DockerWithinEvidence(gs);
    hide Total, RowByRow;
    forall k | Has(Total(gs).docker, k)
      ensures Has(Total(gs).evidence, k)
    {
      HasMonotone(Total(gs).docker, Total(gs).evidence, k);
    }
  }
}
