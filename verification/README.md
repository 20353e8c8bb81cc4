# Verified models of the masc-mcp operations scripts

The scripts under `scripts/` keep a fleet of agents running: one analyses module dependencies, one schedules the
phases of the GOAL LOOP, a family of them turns log lines into findings, decisions and a status, some write reports
that others audit, and two read or edit keeper configuration. This project models their decision logic in Dafny and
proves what they promise. `dafny verify dfyconfig.toml` checks everything.

Parsed values come in as typed records, or as a JSON datatype where a script inspects its input's types. A regular
expression is a predicate on lines, except for the TOML line editor, whose recognisers are written out. Times are whole
seconds. What a command does, whether a file can be read, and what a recogniser finds are parameters.

A loop of a script is a method, and its contract equates the result with a specification function or predicate; what the
script promises is then proved of that function, mostly for whole runs or for two scripts in sequence. The inventory and
its audit share one pattern for tracking references, as the scripts do.

## Files

| file | models |
|---|---|
| `Sorting.dfy`, `Lists.dfy`, `Text.dfy`, `Rounding.dfy`, `Jsons.dfy` | Python's `sorted`, counting and filtering, lists without repetitions; `strip` and substrings; `round`; JSON values |
| `Digraph.dfy`, `TarjanInvariant.dfy`, `CycleFinder.dfy` | `find_cycles`: reachability, the invariant of Tarjan's algorithm, the algorithm over mutable tables |
| `DegreeStats.dfy` | `compute_stats` |
| `Stripper.dfy`, `StripperGrammar.dfy` | the comment and string stripper, and a grammar of the texts it ends outside of |
| `Scheduler.dfy`, `SchedulerRuns.dfy` | one scheduler tick over the state file; any run of ticks |
| `LoopModel.dfy`, `LoopPhases.dfy`, `LoopReplay.dfy` | Observe, Orient, Decide, Verify and Status, and the whole pipeline |
| `LogContract.dfy` | the post-Act log contract |
| `VerifyGates.dfy`, `VerifyCloseout.dfy` | the Verify pipeline report, and the closeout audit that accepts or refuses it |
| `Inventory.dfy`, `InventoryRows.dfy`, `RowTally.dfy`, `InventoryReport.dfy`, `InventoryMeaning.dfy` | the source-row inventory and its report, and what each field says of the sources |
| `InventoryFacts.dfy`, `InventoryLeaks.dfy`, `InventoryAudit.dfy` | what the report says of its sources, which inputs make it name a local path, and the audit of the report |
| `StrictCorpus.dfy`, `CorpusOrient.dfy` | validating a strict row corpus; catalog, corpus and builtin findings combined |
| `Reconciliation.dfy` | claimed totals that should be sums of other claimed totals |
| `Triage.dfy` | families of structured identifiers and the manifest that triages them |
| `Warmup.dfy`, `WarmupFair.dfy` | the keeper name hash and the warmup fairness evidence |
| `KeeperConfig.dfy` | the recursive merge and the include chain of keeper configuration |
| `EvidenceScan.dfy`, `EvidenceVerdicts.dfy`, `EvidenceRows.dfy` | the early-exit evidence scan against an exhaustive one, the verdicts it changes, and its answers read off the rows |
| `TomlLines.dfy`, `TomlGrammar.dfy`, `KeeperToml.dfy`, `KeeperFile.dfy` | the line recognisers and the patterns they stand for, the editor of the `[keeper]` section, what it leaves in the file, and the plan |

## Findings

Six statements one might expect do not hold of the code as it stands. Each is shown to fail on concrete input, and the
exact condition under which it holds is proved for all inputs.

- "Observe re-enters once per failed Verify." With all cadences five, a Verify that fails after sixty seconds and ticks
  at 0 and 1, the second tick answers the failure and leaves it pending (`SchedulerRuns.ReentryRepeats`). An answering
  tick leaves it pending exactly if it comes no later than the failing Verify's completion
  (`SchedulerRuns.AnsweredTooEarlyRepeats`).
- "An accepted Verify report has only passing entries." A fifteenth entry that fails and has no string id is accepted
  (`VerifyCloseout.FailingEntryAccepted`). Every entry of an accepted report passes exactly if its count of passed
  entries equals its total, as it does with fourteen (`VerifyCloseout.AcceptedTotalDecides`).
- "Stopping the evidence scan early changes no verdict." It never changes the six lifecycle answers. But with old
  decisions that create and approve a PR, a push in a metric row without a time, and a recent board post in the
  tool-call log, the scan stops before the post: the keeper is taken to be silent and not to use the board
  (`EvidenceVerdicts.BusyKeeperLooksSilent`). The silence verdict differs from that of an exhaustive scan exactly if a
  row beyond the stop carries a time, no metric or tool-call row read does, no decision row is recent and no other time
  is (`EvidenceVerdicts.SilenceVerdictExactly`), so never where each such row carries a time
  (`EvidenceVerdicts.TimedLogsKeepSilenceVerdict`). A verdict on tools differs exactly if only rows beyond the stop use
  such a tool (`EvidenceVerdicts.ToolVerdictsExactly`).
- "Merging configurations is associative." A scalar between two tables breaks it (`KeeperConfig.MergeNotAssociative`);
  `KeeperConfig.MergeAssociatesExactly` is the condition.
- "A saved configuration has the updated lines." A line inserted behind a last line without a newline is glued to it.
  The reparse refuses most such texts, but not one whose last line gives the identity in single quotes and ends in a
  comment (`KeeperFile.GluedFileIsSaved`). The lines of the joined text are the updated ones exactly if the file is
  clean, that is if no line had to be inserted behind an unfinished last one, and otherwise those with that one pair
  glued (`KeeperFile.JoinedLines`); a file is written exactly if the joined text parses to both values
  (`KeeperFile.SavedFileHolds`).
- "Sound warmup evidence is accepted for any stagger window, zero included." Evidence that meets every other condition
  is refused with a zero window (`Warmup.NoWindowRefused`), although the jitter computation provides for it: the
  linear-sequence check fires exactly there (`Warmup.LinearIffNoWindow`, `Warmup.HonestAcceptedIffWindow`).

## Model

| member | source | states |
|---|---|---|
| CycleFinder.FindCycles | scripts/analyze_lib_deps.py:235-279 | the result lists exactly the classes of mutually reachable vertices with more than one member, disjoint, larger ones first, each without repetition in ascending order at the first differing character; empty exactly when no two distinct vertices reach each other |
| Sorting.StrLeAtFirstDifference | scripts/analyze_lib_deps.py:268-279 | the order of names: a prefix comes first, and otherwise the first differing character decides |
| Lists.SortIsStable | scripts/analyze_lib_deps.py:279 | elements that compare equal keep their order |
| CycleFinder.Finder.StrongConnect | scripts/analyze_lib_deps.py:245-268 | one recursive call keeps Tarjan's invariant, indexes its vertex, leaves other lowlinks alone, and answers with a lowlink that is the index of a reachable stack vertex; the unindexed vertices shrink |
| CycleFinder.Finder.Run | scripts/analyze_lib_deps.py:274-276 | after the root loop the stack is empty, the popped sets are components that cover every key, and every indexed vertex has a lowlink no greater than its index that is the index of a vertex it reaches |
| CycleFinder.Finder.Explore | scripts/analyze_lib_deps.py:252-255 | a recursive call and the minimum after it keep the lowlink of every indexed vertex at a reachable index and no higher than its own |
| CycleFinder.Finder.Revisit | scripts/analyze_lib_deps.py:256-257 | the same for a successor that is on the stack |
| CycleFinder.Finder.PopTo | scripts/analyze_lib_deps.py:260-266 | popping takes exactly the vertices from the root upwards off the stack, each once, and clears their marks |
| TarjanInvariant.PushKeepsValid | scripts/analyze_lib_deps.py:246-250 | entering a vertex every active vertex reaches keeps the invariant |
| TarjanInvariant.ExploredSuccessor | scripts/analyze_lib_deps.py:252-255 | after a recursive call the lowlink minimum still bounds every edge into the lower stack and still has a reachable witness |
| TarjanInvariant.IndexedSuccessor | scripts/analyze_lib_deps.py:256-257 | the same for a successor that has an index already, on the stack or not |
| TarjanInvariant.LowsLower | scripts/analyze_lib_deps.py:252-257 | lowering one lowlink to what a successor offers keeps that for all vertices |
| TarjanInvariant.ReturnKeepsValid | scripts/analyze_lib_deps.py:259-268 | returning with a smaller lowlink leaves the vertex on the stack, reaching an active vertex below |
| TarjanInvariant.TopIsComponent | scripts/analyze_lib_deps.py:259-268 | with lowlink equal to index and no edge below, the stack from the vertex upwards is one whole mutual-reachability class |
| TarjanInvariant.PopKeepsValid | scripts/analyze_lib_deps.py:259-268 | popping that class keeps the invariant; what is done stays closed under edges |
| TarjanInvariant.IdleStackEmpty | scripts/analyze_lib_deps.py:274-276 | between root calls the stack is empty and the components cover every indexed vertex |
| CycleFinder.ReportsEveryComponent | scripts/analyze_lib_deps.py:268-279 | no class with more than one member is missed |
| CycleFinder.NoCyclesMeansAcyclic | scripts/analyze_lib_deps.py:235-279 | an empty answer means acyclic, and the other way round |
| DegreeStats.ComputeStats | scripts/analyze_lib_deps.py:282-319 | total edges is the number of edges, the average is rounded to two decimals, in-degrees are predecessor counts, leaves and roots are the vertices without successors and predecessors, the two top lists are twenty of the highest degrees in descending order, the sample is the first twenty root names |
| DegreeStats.DoubleCounting | scripts/analyze_lib_deps.py:286-292 | however listed, in-degrees add up to the number of edges, as the total of the out-degrees does |
| DegreeStats.AcyclicHasEnds | scripts/analyze_lib_deps.py:300-317 | a nonempty graph without cycles has a leaf and a root |
| Stripper.StripText | scripts/analyze_lib_deps.py:87-157 | the index loop with two-character lookahead computes the mode-by-mode scan of the text |
| Stripper.KeepsLayout | scripts/analyze_lib_deps.py:87-157 | same length, every newline in its place and no new one, any other character kept or blanked |
| Stripper.LeavesNoMarkers | scripts/analyze_lib_deps.py:87-157 | the output holds no quote and no comment opening |
| Stripper.StripIdempotent | scripts/analyze_lib_deps.py:87-157 | stripping twice is stripping once, and exactly the marker-free texts are fixed |
| StripperGrammar.StripProgram | scripts/analyze_lib_deps.py:87-157 | code is kept, string literals and nested comments are blanked whole, for every text of the grammar |
| StripperGrammar.ScanComment | scripts/analyze_lib_deps.py:104-121 | a comment nested to any depth is blanked and the mode afterwards is the mode before |
| StripperGrammar.EndsInCodeIffProgram | scripts/analyze_lib_deps.py:87-157 | the scan ends outside comments and strings exactly on the texts of the grammar |
| Scheduler.StateFile.SchedulerTick | scripts/goal_loop_scheduler.py:395-425 | the in-place tick gives the table, events, iteration, overall status and due list of the tick function, where all decisions are taken on the table before the tick |
| Scheduler.StateFile.NormalizeState | scripts/goal_loop_scheduler.py:164-189 | every phase gets a row and the configured cadence; what a row already holds stays, and a new one has never run |
| Scheduler.StateFile.SelectDuePhases | scripts/goal_loop_scheduler.py:226-259 | the loop selects what the due function says, in phase order |
| Scheduler.StateFile.UpdatePhaseState | scripts/goal_loop_scheduler.py:339-369 | one row changes: a plan moves its due time, lateness and mark; an execution also enters its times and status, counts the run, and counts on or resets the failures |
| Scheduler.UpdatedIsBooked | scripts/goal_loop_scheduler.py:339-369 | the same of the table function that whole runs are stated with |
| Scheduler.EventsSay | scripts/goal_loop_scheduler.py:409-421 | one event per due phase, in order, with its reason and lateness; an execution exactly in a live tick, an error that ends at once without a command |
| Scheduler.StateFile.RunDue | scripts/goal_loop_scheduler.py:407-421 | running the due phases one after the other updates each row once, from the table before the tick |
| Scheduler.Selected | scripts/goal_loop_scheduler.py:226-259 | a phase is selected exactly if it is due, at most once |
| Scheduler.ReasonsMean | scripts/goal_loop_scheduler.py:226-259 | why a phase is due: re-entry, never run, missed deadline or cadence, each exactly on the stated condition, with the due time and lateness |
| Scheduler.OverallMeans | scripts/goal_loop_scheduler.py:372-392 | critical exactly if some row failed or erred, warning exactly if none did and some row missed its deadline, unknown exactly if neither and some row never ran, ok otherwise |
| Scheduler.SleepsToEarliest | scripts/goal_loop_scheduler.py:428-442 | a later time has passed the sleep exactly if re-entry is pending or some stored due time has come |
| SchedulerRuns.RowsMatchHistory | scripts/goal_loop_scheduler.py:339-369 | in every reachable state runs_total is the history's length, consecutive_failures its failing tail, and times and status those of its last execution |
| SchedulerRuns.FailingTailIsLongest | scripts/goal_loop_scheduler.py:359-364 | that tail is the longest failing suffix |
| SchedulerRuns.EventsAreLast200 | scripts/goal_loop_scheduler.py:395-425 | stored events are the last 200 of all events of the run |
| SchedulerRuns.RateBound | scripts/goal_loop_scheduler.py:200-259 | for every run and clock, consecutive executions are a cadence apart, except forced re-entries, which only Observe has |
| SchedulerRuns.RunsFitElapsedTime | scripts/goal_loop_scheduler.py:200-259 | for any phase but Observe, one fewer than the runs times the cadence fits in the elapsed time |
| SchedulerRuns.ObserveRunsFitElapsedTime | scripts/goal_loop_scheduler.py:209-259 | with an advancing clock Observe obeys the bound plus one run per failed Verify |
| SchedulerRuns.ObserveReentersExactlyAfterFailure | scripts/goal_loop_scheduler.py:209-259 | with an advancing clock Observe runs with the re-entry reason exactly in the live tick after a failed Verify |
| SchedulerRuns.ReentryFromHistory | scripts/goal_loop_scheduler.py:209-223 | re-entry is pending exactly if the last Verify failed and Observe has not started since its completion |
| SchedulerRuns.ReentriesBalanceFailures | scripts/goal_loop_scheduler.py:209-259 | re-entries and failed Verify runs balance, but for a failure that has just happened |
| SchedulerRuns.FailureForcesReentry | scripts/goal_loop_scheduler.py:209-223 | a failure forces re-entry under any clock that is not behind Observe's starts |
| SchedulerRuns.AnsweredTooEarlyRepeats | scripts/goal_loop_scheduler.py:209-223 | an answering tick leaves re-entry pending exactly if it is no later than the failing Verify's completion |
| SchedulerRuns.ReentryRepeats | scripts/goal_loop_scheduler.py:209-223 | a run of two ticks in which an answered failure stays pending |
| SchedulerRuns.IterationCountsTicks | scripts/goal_loop_scheduler.py:192-197 | the stored iteration counts the ticks of the run |
| SchedulerRuns.OverallFromHistory | scripts/goal_loop_scheduler.py:372-392 | over every run the stored overall status follows from the histories: critical exactly if the last execution of some phase failed or erred, and so on down to ok; a command that reports NEVER_RUN counts as one that never ran |
| SchedulerRuns.MissedAfterTick | scripts/goal_loop_scheduler.py:339-350 | a row is marked late exactly by a tick after its due time, cleared by one at it, on first run or on re-entry, and otherwise kept |
| SchedulerRuns.LiveTickRunsAll | scripts/goal_loop_scheduler.py:226-259 | after one live tick every phase has run |
| SchedulerRuns.SleepIsExact | scripts/goal_loop_scheduler.py:428-442 | no idle wake and no oversleep: a later tick selects a phase exactly if the computed sleep has passed |
| LoopPhases.ScanLogs | scripts/observe_goal_loop_logs.py:165-204 | the count of a pattern is the number of lines it matches, matched lines are those any pattern matches; first samples, line total and files are those of the log |
| LoopModel.FilesAreFirstSeen | scripts/observe_goal_loop_logs.py:165-204 | the files are the paths of the lines, each once, in order of first appearance |
| LoopPhases.OrientScan | scripts/orient_goal_loop_logs.py:1334-1376 | every builtin finding is reported once, in order, with the total of its patterns and the first three samples, present exactly if the total is positive; the summary gives the numbers of findings present, absent, and critical and present |
| LoopPhases.CountsAddUp | scripts/orient_goal_loop_logs.py:1334-1340 | totals add up over the patterns, a pattern the scan lacks counting zero |
| LoopPhases.SamplesJoin | scripts/orient_goal_loop_logs.py:1337-1339 | samples are those of the patterns, one after the other |
| LoopPhases.DecideOrient | scripts/decide_goal_loop_findings.py:196-247 | a decision is queued exactly if one of its findings is oriented as present; a queued decision is linked exactly if the act map lists an artifact for it, unmapped exactly if there is no map, and missing otherwise, with those artifacts; the queue goes by priority and falling score, and the counts are the numbers of such entries |
| Rounding.RoundedIsNear | scripts/decide_goal_loop_findings.py:218 | the rounding of a score moves it by at most half a hundredth, and whole hundredths not at all |
| Rounding.RoundsTo | scripts/decide_goal_loop_findings.py:218 | it is the nearest whole hundredth, and of two equally near the even one |
| LoopPhases.QueueIsFixed | scripts/decide_goal_loop_findings.py:224-230 | the sorted queue always lists the due decisions in one fixed order, the second emergency decision first |
| LoopPhases.VerifyOrient | scripts/verify_goal_loop_logs.py:82-134 | the failing findings are those the policy fails, and passing means there are none |
| LoopReplay.ObserveMeans | scripts/goal_loop_status.py:93-142 | Observe is critical or ok exactly as lines match critical patterns or none |
| LoopReplay.OrientMeans | scripts/goal_loop_status.py:320-326 | the same for Orient and findings |
| LoopReplay.DecideMeans | scripts/goal_loop_status.py:368-386 | the same for Decide and the P0 decisions that are due |
| LoopReplay.ActionsMean | scripts/goal_loop_status.py:368-386 | Act is critical exactly if a map was given and it lists no artifact for some decision that is due |
| LoopReplay.VerifyMeans | scripts/verify_goal_loop_logs.py:92-134 | Verify passes exactly if no line matches a pattern of a finding the policy covers |
| LoopReplay.StatusMaxIsHighest | scripts/goal_loop_status.py:66-69 | the combined status is the worst of the given ones |
| LoopReplay.Replay | scripts/goal_loop_live_replay.py:277-324 | for every log, act map and policy the overall status is ok exactly if no line matches any pattern, and critical exactly for the named reasons |
| LoopReplay.CriticalPatterns | scripts/orient_goal_loop_logs.py:116-177 | through the tables: the log alone is critical exactly if a line matches one of seven patterns, and the strict policy fails exactly on six of them |
| LoopReplay.DecisionPatterns | scripts/decide_goal_loop_findings.py:56-123 | and each decision is due exactly if a line matches one of its patterns |
| LogContract.VerifyLogContract | scripts/verify_goal_loop_logs.py:156-232 | a forbidden pattern that occurs and a required one that does not, and no other, is a violation of its kind, forbidden ones first; a forbidden one counts the lines it is found in as often as it is listed; files and line total are those of the log |
| LogContract.PassesIffHolds | scripts/verify_goal_loop_logs.py:199-232 | it passes exactly if every required pattern occurs and no forbidden one does |
| LogContract.ListedOnceCountsLines | scripts/verify_goal_loop_logs.py:180-197 | a pattern that is listed once is counted once for each line it is found in |
| LogContract.MatchesTimesListed | scripts/verify_goal_loop_logs.py:180-197 | and one that is listed more than once, that many times |
| VerifyGates.GateIdsMatchRequired | scripts/goal_loop_verify_pipeline.py:502-531 | on any list of ids, of the contract or not, the guard passes exactly if each required id occurs once and nothing else does |
| VerifyGates.BuildLogGate | scripts/goal_loop_verify_pipeline.py:420-458 | blocked without logs; otherwise it passes exactly if in the lines given every required pattern occurs and no forbidden one does |
| VerifyGates.BuildPipelineReport | scripts/goal_loop_verify_pipeline.py:534-574 | for every input the guard never refuses; each gate passes, fails, is blocked or is skipped exactly on the stated condition on the metrics, the prompt specs, the unit-test reports and the raw log lines; totals are numbers of gates and the status follows |
| VerifyCloseout.AcceptedHasEveryGate | scripts/goal_loop_completion_audit.py:1112-1187 | acceptance of any JSON implies each of the fourteen gates is in exactly one named entry, passing |
| VerifyCloseout.AcceptsExactly | scripts/goal_loop_completion_audit.py:1112-1187 | the nested checks accept exactly the complete reports: header fields, five totals that are the numbers of entries, each required gate in one passing entry and no entry with another id |
| VerifyCloseout.ProducedAcceptedIffPass | scripts/goal_loop_completion_audit.py:1112-1187 | a produced report is accepted exactly if its status is PASS |
| VerifyCloseout.AcceptedIffEvidenced | scripts/goal_loop_verify_pipeline.py:142-574 | end to end: a produced report is accepted exactly if every metric was measured and passes, every prompt spec was found and passed, logs were given whose lines hold every required pattern and no forbidden one, and unit tests were reported passed and not failed |
| VerifyCloseout.NamelessEntryIgnored | scripts/goal_loop_completion_audit.py:1112-1187 | an entry without a string id changes no verdict, whatever its status |
| VerifyCloseout.AcceptedTotalDecides | scripts/goal_loop_completion_audit.py:1112-1187 | an accepted report has at least fourteen entries, exactly with fourteen all are named, and every entry passes exactly if the reported passed count equals the total |
| VerifyCloseout.FailingEntryAccepted | scripts/goal_loop_completion_audit.py:1112-1187 | a concrete report with a nameless failing entry that is accepted |
| Inventory.CollectCandidates | scripts/extract_goal_loop_source_row_candidates.py:350-411 | each id seen has one winner: highest priority, then lowest line, then first seen, over all sources |
| Inventory.ChooseKeepsBest | scripts/extract_goal_loop_source_row_candidates.py:317-330 | the pairwise choice keeps the best of everything seen so far |
| Inventory.BestIsUnique | scripts/extract_goal_loop_source_row_candidates.py:317-330 | what was seen determines the winners |
| InventoryRows.BestIffChosen | scripts/extract_goal_loop_source_row_candidates.py:317-411 | said of the sources: a winner is the row, kept as it stands at its place, that beats every other of its id by priority, then line, then earlier source, then earlier match |
| RowTally.TallyRows | scripts/extract_goal_loop_source_row_candidates.py:413-420 | the counting dictionary lists every key of the winners once, with the size of its class |
| RowTally.TallyAddsUp | scripts/extract_goal_loop_source_row_candidates.py:413-420 | per-key counts add up to the number of winners |
| InventoryReport.InventorySources | scripts/extract_goal_loop_source_row_candidates.py:333-530 | every field of the report, candidate rows included, in terms of the sources and the winners; lists in order |
| InventoryMeaning.ReportMeans | scripts/extract_goal_loop_source_row_candidates.py:333-530 | field by field: unreadable sources, rows per file and per rule, sources without rows and their markers and references, claims and what blocks, status and result, as conditions on the sources and numbers of them |
| InventoryMeaning.ClaimsConcat | scripts/extract_goal_loop_source_row_candidates.py:361-368 | claims are those of the sources, one after the other |
| InventoryMeaning.MarkersAddUp | scripts/extract_goal_loop_source_row_candidates.py:425-434 | the marker total adds up over the sources without rows |
| InventoryReport.UnstructuredMarkerCounts | scripts/extract_goal_loop_source_row_candidates.py:96-114 | each count is the number of lines that are a heading, table row, numbered item or bullet, and the total is their sum |
| InventoryReport.MarkedIffSome | scripts/extract_goal_loop_source_row_candidates.py:96-114 | the total is positive exactly if some line is one of the four |
| InventoryReport.FutureDateClaims | scripts/extract_goal_loop_source_row_candidates.py:117-170 | the dates claimed for a line are its dates past the check date in order, lines in order; the words of the line decide the kind, a due date before a forecast before a report date, and only a due date or a forecast does not block |
| Text.LowerMeans | scripts/extract_goal_loop_source_row_candidates.py:118 | lowering changes capital letters into small ones and nothing else |
| Text.ContainsMeans | scripts/extract_goal_loop_source_row_candidates.py:117-142 | a word occurs exactly if the text is something before it, the word, and something after it |
| InventoryLeaks.ReportLeaks | scripts/orient_goal_loop_logs.py:551-558 | the recursive search through the report as JSON finds a local path exactly if one of its texts names one |
| InventoryLeaks.ReportLeaksInputs | scripts/extract_goal_loop_source_row_candidates.py:333-530 | and that is so exactly if an input it draws on names one: a fixed text, the catalog, a source's path, a dated line past the check date, a tracking reference that is listed, a winner's rule, or a row that is included |
| InventoryAudit.PromptSourceList | scripts/goal_loop_completion_audit.py:158-197 | valid exactly if nothing is blank, repeated or misplaced after stripping |
| InventoryAudit.AuditClaims | scripts/goal_loop_completion_audit.py:540-564 | the claim loop finds the claimed and the blocking paths, and is silent exactly on well-formed claims |
| InventoryAudit.AuditDetails | scripts/goal_loop_completion_audit.py:640-688 | the detail loop re-derives marker and tracking totals, and is silent exactly on sound details |
| InventoryAudit.AuditInventory | scripts/goal_loop_completion_audit.py:445-758 | for any typed report the verdict is the stated conjunction, the search for local paths included |
| InventoryAudit.RecordedIffSound | scripts/goal_loop_completion_audit.py:445-758 | and that conjunction written out on the fields of the report |
| InventoryAudit.AuditDecides | scripts/goal_loop_completion_audit.py:445-758 | a produced report is recorded exactly if the run's own inputs were acceptable: catalog id and expected total match, rows within the expected total, twelve distinct, well-placed, readable sources, a tracking reference wherever it is needed, no local path in an input the report draws on |
| InventoryAudit.InventoryThenAudit | scripts/goal_loop_completion_audit.py:445-758 | the two scripts one after the other decide that condition, as one on the sources, the run and the auditor alone |
| InventoryAudit.RecordedPartitions | scripts/goal_loop_completion_audit.py:689-723 | in any recorded report sources with and without rows add up to the sources checked |
| StrictCorpus.ValidateStrictRowCorpus | scripts/orient_goal_loop_logs.py:248-497 | on any JSON the reported error codes are exactly the broken rules, none exactly if the corpus is sound; it raises exactly if some row has a severity that is a list or an object |
| StrictCorpus.CleanIffSound | scripts/orient_goal_loop_logs.py:248-497 | what sound means: the header fields, every field of every row, ids that differ, logical paths the catalog lists, lines within the count of the last catalog entry for the path, no local path |
| StrictCorpus.CheckRows | scripts/orient_goal_loop_logs.py:331-466 | per fault, the faulty rows are exactly those that have it; repetitions are found against all earlier rows |
| StrictCorpus.CheckRow | scripts/orient_goal_loop_logs.py:337-466 | the branches of one turn find each fault of the row, and only those |
| StrictCorpus.RepeatsIffSeen | scripts/orient_goal_loop_logs.py:347-352 | an identifier is in the seen set exactly if an earlier row has it |
| CorpusOrient.CatalogSpecs | scripts/orient_goal_loop_logs.py:609-685 | raises exactly if the findings are no list or one amounts to no specification; otherwise one specification each, in order |
| CorpusOrient.SpecOfMeans | scripts/orient_goal_loop_logs.py:609-685 | a finding amounts to a specification exactly if, field by field, it gives what the specification has or leaves it to the builtin one with its id |
| CorpusOrient.MergedSpecs | scripts/orient_goal_loop_logs.py:688-703 | a trusted catalog stands alone; otherwise builtins first in order, new ids in order of appearance, each with the last specification given |
| CorpusOrient.Overlay | scripts/orient_goal_loop_logs.py:697-703 | dictionary and id list together give first-appearance order and last-wins content |
| CorpusOrient.ValidatedCorpusOrients | scripts/orient_goal_loop_logs.py:561-703 | a corpus without errors is trusted, never raises whatever is built in, has distinct ids, and is COMPLETE with exactly the expected number |
| CorpusOrient.ValidatedSummary | scripts/orient_goal_loop_logs.py:561-585 | what the merged catalog then says of the corpus, one id per row included; its other keys stay |
| CorpusOrient.StatusMeans | scripts/orient_goal_loop_logs.py:1267-1277 | unbounded, complete, over-itemised or incomplete exactly as the expected number is missing, equal, smaller or larger |
| CorpusOrient.OrientSpecs | scripts/orient_goal_loop_logs.py:1334-1374 | one finding per specification with its total and first three samples; without negative counts it is not evaluated exactly if it has no patterns, present exactly if the scan counts one of them, absent otherwise, and critical findings are present exactly if a critical specification has such a pattern; the summary gives the numbers of findings |
| CorpusOrient.CountsAddUp | scripts/orient_goal_loop_logs.py:1334-1340 | totals add up over the patterns |
| CorpusOrient.SamplesJoin | scripts/orient_goal_loop_logs.py:1337-1339 | samples are those of the patterns, one after the other |
| CorpusOrient.OrientWithCorpus | scripts/orient_goal_loop_logs.py:1316-1382 | end to end: it raises exactly if validation does, or the corpus is not sound and a finding of the catalog amounts to no specification; a sound corpus orients to COMPLETE with one finding for the specification of each row, ids distinct and in order; another is not trusted and orients to the overlay of the builtins with the catalog's own findings, with the status of the catalog alone; evidence is read off the scan as above |
| Reconciliation.AggregateReconciliation | scripts/orient_goal_loop_logs.py:811-906 | verified counts the sound reconciliations, each kind of fault is recorded as often as a reconciliation has it, and the status is COMPLETE exactly if there are some and all are sound |
| Reconciliation.CheckReconciliation | scripts/orient_goal_loop_logs.py:820-890 | the chain of early exits answers with the first thing wrong: unknown or missing target, operation, malformed or unknown term, no terms, or a wrong sum; with nothing exactly if the reconciliation is sound |
| Reconciliation.SumClaims | scripts/orient_goal_loop_logs.py:851-868 | malformed and unknown terms are found, and known ones summed |
| Reconciliation.LatestClaim | scripts/orient_goal_loop_logs.py:795-808 | of several claims with one identifier the last well-formed one gives the total |
| Reconciliation.ClaimedTotals | scripts/orient_goal_loop_logs.py:795-808 | a total is known exactly for the identifiers of well-formed claims |
| Reconciliation.TermsAddUp | scripts/orient_goal_loop_logs.py:851-868 | sums add up over the terms |
| Reconciliation.KnownTermCounts | scripts/orient_goal_loop_logs.py:851-868 | a term counts its claim's total, or nothing if it names no known claim |
| Triage.Family | scripts/orient_goal_loop_logs.py:38-48 | the family is R-FATAL for its items, P- and the part up to the next dash for prompt items, the single letter for S and F numbers, and otherwise everything up to the first dash |
| Triage.FamilySummary | scripts/orient_goal_loop_logs.py:51-74 | one entry per family, sorted; each counts the identifiers of its family and those the catalog lacks, and its samples are the first ten of these in order |
| Triage.SummaryAddsUp | scripts/orient_goal_loop_logs.py:51-74 | totals add up to the identifiers, uncataloged counts to the identifiers the catalog lacks |
| Triage.StructuredTriage | scripts/goal_loop_completion_audit.py:243-346 | family by family, the last entry of the manifest against what the summary needs: missing, extra, miscounted and unowned families are exactly those, and it passes exactly if there are none and the header fits |
| Triage.TriageCovers | scripts/goal_loop_completion_audit.py:243-346 | a triage passes exactly if its header fits, every entry is owned, and read last-wins it covers the families of the uncataloged identifiers with their counts |
| Triage.CoverageAddsUp | scripts/goal_loop_completion_audit.py:272-300 | in whatever order, the counts of a covering manifest add up to the uncataloged total |
| Warmup.StableKeeperNameHash | scripts/goal_loop_completion_audit.py:151-155 | the masked loop is 5381 times 33 to the length plus the weighted bytes, modulo 2 to the 30 |
| WarmupFair.HashSteps | scripts/goal_loop_completion_audit.py:151-155 | one more byte takes the hash to 33 times itself plus the byte, modulo 2 to the 30, from 5381 on |
| WarmupFair.BytesDecode | scripts/goal_loop_completion_audit.py:151-155 | the bytes of a character are its UTF-8 encoding: they decode to it |
| WarmupFair.EncodeConcat | scripts/goal_loop_completion_audit.py:151-155 | a name's bytes are those of its characters, one after the other |
| Warmup.AuditWarmup | scripts/goal_loop_completion_audit.py:1190-1391 | the verdict is the stated conjunction on the evidence |
| WarmupFair.RecordedIffFair | scripts/goal_loop_completion_audit.py:1190-1391 | written out: accepted exactly with the fixed claims, a positive window, one row per keeper and per position with the hash, jitter and delay of its name, and the late keeper's figures |
| Warmup.CheckRows | scripts/goal_loop_completion_audit.py:1232-1274 | the row loop finds repeated names against all earlier rows, wrong rows, warmups and positions |
| Warmup.RecordedMeans | scripts/goal_loop_completion_audit.py:1232-1288 | acceptance implies rows biject with the fourteen keepers and with positions 0 to 13, and each warmup is base plus hash modulo window plus one, within the window |
| Warmup.WarmupIgnoresOrder | scripts/goal_loop_completion_audit.py:1258-1262 | with the same base and window a keeper gets the same delay in any accepted evidence, whatever the boot order |
| Warmup.LinearIffNoWindow | scripts/goal_loop_completion_audit.py:1297-1318 | among sound rows the linear-sequence check fires exactly if the window is zero |
| Warmup.RecordedIffWindow | scripts/goal_loop_completion_audit.py:1190-1391 | so a positive window is exactly what that check adds to acceptance |
| Warmup.HonestAcceptedIffWindow | scripts/goal_loop_completion_audit.py:1190-1391 | evidence as an honest scheduler would write it is accepted exactly with a positive window |
| Warmup.NoWindowRefused | scripts/goal_loop_completion_audit.py:1297-1318 | concrete evidence without a window: sound in every row, and refused |
| KeeperConfig.MergeDicts | scripts/audit-keeper-fleet-readiness.py:190-197 | the loop over a copy computes the recursive merge |
| KeeperConfig.LeafOfMerge | scripts/audit-keeper-fleet-readiness.py:190-197 | path by path: the overlay's scalars, and the base's wherever the overlay has nothing |
| KeeperConfig.OnlyEmptyIsUnit | scripts/audit-keeper-fleet-readiness.py:190-197 | the empty table, and no other, is a unit on either side |
| KeeperConfig.MergeIdempotent | scripts/audit-keeper-fleet-readiness.py:190-197 | merging a table with itself changes nothing |
| KeeperConfig.CoveredIsAbsorbed | scripts/audit-keeper-fleet-readiness.py:190-197 | a base is absorbed exactly if the overlay says everything it says |
| KeeperConfig.MergeAssociatesExactly | scripts/audit-keeper-fleet-readiness.py:190-197 | the exact condition under which three tables merge in either order |
| KeeperConfig.SameShapeAssociates | scripts/audit-keeper-fleet-readiness.py:190-197 | tables of compatible shape always do |
| KeeperConfig.MergeNotAssociative | scripts/audit-keeper-fleet-readiness.py:190-197 | a scalar between two tables breaks associativity |
| KeeperConfig.LoadKeeperConfig | scripts/audit-keeper-fleet-readiness.py:200-217 | loading ends on every include graph: cyclic exactly if the chain revisits a file, missing exactly if it runs out, otherwise the fold of the chain, in which the first file that has something at a path decides about it |
| KeeperConfig.LeafOfFold | scripts/audit-keeper-fleet-readiness.py:200-217 | path by path, the first file of the chain that has something there decides, and its own table is all it takes |
| KeeperConfig.BaseIsInclude | scripts/audit-keeper-fleet-readiness.py:200-217 | a file includes what its base resolves to, exactly if the base is a string that is not blank |
| KeeperConfig.RevisitingNeverEnds | scripts/audit-keeper-fleet-readiness.py:200-217 | a chain that revisits a file neither ends nor runs out |
| EvidenceScan.EvidenceFromToolCall | scripts/audit-keeper-fleet-readiness.py:710-739 | the command loop with its break gathers what the recognised commands stand for |
| EvidenceScan.ScanKeeperEvidence | scripts/audit-keeper-fleet-readiness.py:1015-1092 | the result is the total of the rows read: those of every decision file, of the metric files up to the first after which there is enough, and, if there is not, of the tool-call files likewise |
| EvidenceScan.EarlyExitAnswersAlike | scripts/audit-keeper-fleet-readiness.py:1062-1092 | an early stop gives the same six lifecycle answers as scanning every row; docker evidence is part of evidence throughout |
| EvidenceScan.DockerDecidesEnough | scripts/audit-keeper-fleet-readiness.py:884-889 | docker evidence alone decides when to stop |
| EvidenceRows.AuditLifecycle | scripts/audit-keeper-fleet-readiness.py:650-1239 | a create, a push and an approval, anywhere and in docker, are each found exactly if some row of the logs that counts shows one, read or not; tools and time found are those of such rows |
| EvidenceRows.TotalNamed | scripts/audit-keeper-fleet-readiness.py:1015-1092 | an exhaustive scan finds exactly the tools that some row that counts names |
| EvidenceRows.MetricSourceIsFirst | scripts/audit-keeper-fleet-readiness.py:742-747 | a metric's source is the first field that is not blank, stripped |
| EvidenceVerdicts.EarlyExitKeepsExactly | scripts/audit-keeper-fleet-readiness.py:1062-1092 | tools, latest time, evidence and docker evidence each equal those of the exhaustive scan exactly if what the rows beyond the stop have is also before it, or for the time surpassed |
| EvidenceVerdicts.EarlyExitLosesTool | scripts/audit-keeper-fleet-readiness.py:1062-1092 | a tool is lost exactly if a row beyond the stop names it and none before does |
| EvidenceVerdicts.ToolVerdictsExactly | scripts/audit-keeper-fleet-readiness.py:1211-1215 | the verdicts on board, PR surface and review tools each differ from those of the exhaustive scan exactly if a row beyond the stop uses such a tool and none before does, and for the board no post was found otherwise |
| EvidenceVerdicts.SurfaceLostOnlyBehindMetrics | scripts/audit-keeper-fleet-readiness.py:1062-1092 | if the PR surface verdict differs, every push and approval read came from a metric row |
| EvidenceVerdicts.SilenceVerdictExactly | scripts/audit-keeper-fleet-readiness.py:1178-1209 | with the logs read back to the start of the silence window, as the audit reads them, the silence verdict differs from that of the exhaustive scan exactly if a row beyond the stop carries a time, no metric or tool-call row read does, no decision row is recent, and no other time is |
| EvidenceVerdicts.TimedLogsKeepSilenceVerdict | scripts/audit-keeper-fleet-readiness.py:1029-1092 | it never differs if every metric and tool-call row carries a time |
| EvidenceVerdicts.BusyKeeperLooksSilent | scripts/audit-keeper-fleet-readiness.py:1015-1215 | concrete logs, read as the audit reads them, that lose a tool, the latest time, the board verdict and the silence verdict |
| TomlLines.RewrittenIsFixed | scripts/keeper-github-identity-split.py:139-151 | a rewritten line assigns its key the new value, keeps its ending, and is a fixed point of rewriting |
| TomlLines.AssignmentIsNoHeader | scripts/keeper-github-identity-split.py:123-151 | a line that assigns a bare key never closes a section |
| TomlGrammar.HeaderIsBracketed | scripts/keeper-github-identity-split.py:26 | the recogniser accepts exactly the lines of the section pattern, part by part |
| TomlGrammar.AssignmentIsPattern | scripts/keeper-github-identity-split.py:139-147 | it reads exactly the parts of the assignment pattern, with the shortest value that a tail follows |
| TomlGrammar.KeeperHeaderIs | scripts/keeper-github-identity-split.py:123-127 | the keeper header is the bracketed word between whitespace, before nothing or a hash |
| KeeperToml.ConfigLines.KeeperSectionBounds | scripts/keeper-github-identity-split.py:123-136 | the two index loops find the keeper header and the next header, or the end |
| KeeperToml.ConfigLines.SetTomlStringField | scripts/keeper-github-identity-split.py:139-151 | the in-place edit replaces the section's body by the edited body, and the returned end is where it ends |
| KeeperToml.ConfigLines.UpdateKeeperConfig | scripts/keeper-github-identity-split.py:154-183 | both fields are set in one pass over moving bounds; the joined text is written exactly if the parser reads both values from it, and each refusal is named by what it reads instead |
| KeeperToml.OutcomeMeans | scripts/keeper-github-identity-split.py:166-183 | the same of the outcome alone: no section exactly without a header, otherwise what the parser makes of the text decides |
| KeeperToml.BoundsFollowBody | scripts/keeper-github-identity-split.py:123-151 | a body without headers leaves the section in place, ending with the body |
| KeeperToml.UpdateIsSound | scripts/keeper-github-identity-split.py:123-151 | lines outside stay, the line pattern finds both values again, unrelated lines survive in order, a second update is idle |
| KeeperToml.RereadExactly | scripts/keeper-github-identity-split.py:154-174 | splitting and joining are inverse, and lines are read back exactly if all but the last end in a newline |
| KeeperToml.UpdateIsReread | scripts/keeper-github-identity-split.py:154-174 | exactly when splitting the joined text gives the updated lines |
| KeeperFile.JoinedLines | scripts/keeper-github-identity-split.py:154-174 | the lines of the joined text are the updated ones exactly if the file is clean, and otherwise those with the last old line and the next one glued |
| KeeperFile.SavedFileHolds | scripts/keeper-github-identity-split.py:166-183 | a file is written exactly if the joined text parses to both values, and its lines are then those of the joined text |
| KeeperFile.SecondRunIsIdle | scripts/keeper-github-identity-split.py:154-183 | a second run on a file that was written clean writes the same text again |
| KeeperFile.GluedFileIsSaved | scripts/keeper-github-identity-split.py:154-183 | a concrete file that is written although two of its lines are glued |
| KeeperFile.BuildPlan | scripts/keeper-github-identity-split.py:104-120 | identities are dealt round-robin, one entry per file in order with its credential directory; refused exactly if some path is no file |

## Left out

- Files, archives, sub-processes, the network and argument parsing; JSON and TOML parsing (a TOML parser is a
  parameter); text rendering; hashing of files.
- Integers that are really booleans in Python's `isinstance`, and floats: a quotient is rounded as a real number.
- Regular expressions other than those of the TOML line editor: they are predicates on a line, and a row recogniser,
  the date pattern or a local-path test is a parameter.
- `analyze_lib_deps.py`: reference extraction, clusters, the order of equally large cycles, and Python's recursion
  limit.
- DegreeStats.ComputeStats: vertices of equal degree may come in any order, as the sets they are counted from are
  unordered.
- `goal_loop_scheduler.py`: `phase_configs` parsing (cadences are taken as positive, as it demands), output paths, exit
  codes and error texts of an execution; `infer_output_status` is part of the command's outcome.
- Observe to Status: anti-stagnation signals and the status keys of an audit catalog. Findings, patterns and decisions
  are enumerations instead of strings.
- `capture_log_window` in `goal_loop_live_replay.py`: file-system races.
- VerifyGates.BuildPipelineReport: a metric is a number or missing; messages, commands and evidence texts of a gate are
  not modelled.
- InventoryReport.InventorySources: a path is the logical path of its file, and the policy text is a parameter.
- InventoryAudit.AuditInventory: the report's fields have the types the inventory writes, and the diagnostic lists
  returned beside the verdict are reduced to whether they are empty.
- StrictCorpus.ValidateStrictRowCorpus: faulty rows are named by position, not by label, and the lists are not cut to
  twenty entries; the summary put into the catalog holds only the fields that are read again.
- CorpusOrient.OrientWithCorpus: source artifacts, external sources and the search for claims in source texts.
- Triage.StructuredTriage: evidence without a family list or a manifest is covered, malformed entries are entries
  without a family.
- Warmup.AuditWarmup: the list of reasons is reduced to whether it is empty; fields that are compared with a constant
  are grouped in one record.
- EvidenceScan.ScanKeeperEvidence: markers, commands and the run id of a row are what the recognisers say of them,
  times are whole seconds and the audit's readings of the clock are one; the PR creation and board post scans are not
  modelled, except as another time and another board verdict the audit takes into account.
- KeeperToml.UpdateIsSound: the values are those the line pattern finds; what a TOML parser reads is the subject of
  `KeeperFile.SavedFileHolds`. Lines are split at newlines only, and an identity is assumed to hold no quote and no
  newline, which `validate_identity` grants but for a trailing newline.
- Reconciliation.AggregateReconciliation: a failed reconciliation is recorded by its fault alone, not cut to ten
  samples.
- The prompt closeout checklist and the other completion criteria: field comparisons that would add only easy members.
- The OCaml server, the dashboard and the one-off `fix_*` scripts.
