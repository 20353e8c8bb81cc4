/** The post-Act log contract: patterns that must occur in the logs, and patterns that must not. */
module LogContract {
  import opened Lists
  import opened LoopModel

  // Whether a pattern's regular expression is found in a line.
  type Finds = (string, string) -> bool

  datatype Kind = ForbiddenPresent | RequiredMissing

  datatype Violation = Violation(pattern: string, kind: Kind, count: nat, samples: seq<LogLine>)

  datatype ContractReport = ContractReport(
    passed: bool, files: seq<string>, totalLines: nat, required: nat, forbidden: nat, violations: seq<Violation>)

  // ---- what the report says ----

  function Equals(p: string): string -> bool {
    (q: string) => q == p
  }

  // What one line adds to the matches of p: a pattern that is listed twice matches it twice.
  function Gain(patterns: seq<string>, p: string, line: LogLine, finds: Finds): seq<LogLine> {
    if finds(p, line.text) then seq(CountIf(patterns, Equals(p)), i => line) else []
  }

  function MatchesOf(log: seq<LogLine>, finds: Finds, patterns: seq<string>, p: string): seq<LogLine> {
    if log == [] then [] else
      MatchesOf(log[..|log| - 1], finds, patterns, p) + Gain(patterns, p, log[|log| - 1], finds)
  }

  // The forbidden patterns among ps that occur.
  function Present(log: seq<LogLine>, finds: Finds, forbidden: seq<string>, max: nat, ps: seq<string>): seq<Violation> {
    if ps == [] then [] else
      var p := ps[|ps| - 1];
      var hits := MatchesOf(log, finds, forbidden, p);
      Present(log, finds, forbidden, max, ps[..|ps| - 1])
      + if hits == [] then [] else [Violation(p, ForbiddenPresent, |hits|, Take(hits, max))]
  }

  // The required patterns among ps that do not.
  function Absent(log: seq<LogLine>, finds: Finds, required: seq<string>, ps: seq<string>): seq<Violation> {
    if ps == [] then [] else
      var p := ps[|ps| - 1];
      Absent(log, finds, required, ps[..|ps| - 1])
      + if MatchesOf(log, finds, required, p) != [] then [] else [Violation(p, RequiredMissing, 0, [])]
  }

  ghost predicate IsReport(r: ContractReport, log: seq<LogLine>, finds: Finds, required: seq<string>,
                           forbidden: seq<string>, max: nat) {
    && r.files == FilesOf(log) && r.totalLines == |log|
    && r.required == |required| && r.forbidden == |forbidden|
    && r.violations == Present(log, finds, forbidden, max, forbidden) + Absent(log, finds, required, required)
    && r.passed == (r.violations == [])
  }

  // ---- the counting loops ----

  ghost predicate Tallied(r: PatternReport, hits: seq<LogLine>, max: nat) {
    r == PatternReport(|hits|, Take(hits, max))
  }

  // The counts and samples of every pattern listed, as the log so far gives them.
  ghost predicate AllTallied(reports: map<string, PatternReport>, log: seq<LogLine>, finds: Finds,
                             patterns: seq<string>, max: nat) {
    && (forall p :: p in patterns ==> p in reports)
    && forall p :: p in reports ==> Tallied(reports[p], MatchesOf(log, finds, patterns, p), max)
  }

  lemma GainStep(patterns: seq<string>, k: nat, p: string, line: LogLine, finds: Finds)
    requires k < |patterns|
    ensures Gain(patterns[..k + 1], p, line, finds) ==
            Gain(patterns[..k], p, line, finds) + if patterns[k] == p && finds(p, line.text) then [line] else []
  {
    assert patterns[..k + 1][..k] == patterns[..k];
  }

  lemma TallyStep(r: PatternReport, hits: seq<LogLine>, line: LogLine, max: nat)
    requires Tallied(r, hits, max)
    ensures Tallied(Bumped(r, line, max), hits + [line], max)
  {
    TakeGrows(hits, line, max);
  }

  // One line against one list of patterns.
  method ScanPatterns(patterns: seq<string>, line: LogLine, finds: Finds, max: nat, reports: map<string, PatternReport>,
                      ghost hits: map<string, seq<LogLine>>)
    returns (updated: map<string, PatternReport>)
    requires hits.Keys == reports.Keys && forall p :: p in patterns ==> p in reports
    requires forall p :: p in reports ==> Tallied(reports[p], hits[p], max)
    ensures updated.Keys == reports.Keys
    ensures forall p :: p in updated ==> Tallied(updated[p], hits[p] + Gain(patterns, p, line, finds), max)
  {
    updated := reports;
    NoGain(line, finds);
    for k := 0 to |patterns|
      invariant updated.Keys == reports.Keys
      invariant forall p :: p in updated ==> Tallied(updated[p], hits[p] + Gain(patterns[..k], p, line, finds), max)
    {
      hide Gain, Tallied, Bumped;
      var q := patterns[k];
      ghost var before := updated;
      if finds(q, line.text) {
        updated := updated[q := Bumped(updated[q], line, max)];
      }
      forall p | p in updated
        ensures Tallied(updated[p], hits[p] + Gain(patterns[..k + 1], p, line, finds), max)
      {
        GainStep(patterns, k, p, line, finds);
        var now := hits[p] + Gain(patterns[..k], p, line, finds);
        if q == p && finds(p, line.text) {
          TallyStep(before[p], now, line, max);
          assert now + [line] == hits[p] + (Gain(patterns[..k], p, line, finds) + [line]);
        } else {
          assert now == hits[p] + (Gain(patterns[..k], p, line, finds) + []);
        }
      }
    }
    assert patterns[..|patterns|] == patterns;
  }

  lemma NoGain(line: LogLine, finds: Finds)
    ensures forall p, hits: seq<LogLine> :: hits + Gain([], p, line, finds) == hits
  {
  }

  method ScanLine(patterns: seq<string>, ghost log: seq<LogLine>, line: LogLine, finds: Finds, max: nat,
                  reports: map<string, PatternReport>)
    returns (updated: map<string, PatternReport>)
    requires AllTallied(reports, log, finds, patterns, max)
    ensures AllTallied(updated, log + [line], finds, patterns, max)
  {
    hide Gain, Tallied;
    updated := ScanPatterns(patterns, line, finds, max, reports,
                            map p | p in reports :: MatchesOf(log, finds, patterns, p));
    assert (log + [line])[..|log|] == log;
  }

  // The loop over the lines.
  method ScanContract(log: seq<LogLine>, finds: Finds, required: seq<string>, forbidden: seq<string>, max: nat)
    returns (files: seq<string>, total: nat, needed: map<string, PatternReport>, banned: map<string, PatternReport>)
    ensures files == FilesOf(log) && total == |log|
    ensures AllTallied(needed, log, finds, required, max) && AllTallied(banned, log, finds, forbidden, max)
  {
    needed := map p | p in required :: PatternReport(0, []);
    banned := map p | p in forbidden :: PatternReport(0, []);
    files, total := [], 0;
    for i := 0 to |log|
      invariant files == FilesOf(log[..i]) && total == i
      invariant AllTallied(needed, log[..i], finds, required, max)
      invariant AllTallied(banned, log[..i], finds, forbidden, max)
    {
      hide AllTallied;
      var line := log[i];
      assert log[..i + 1] == log[..i] + [line];
      assert log[..i + 1][..i] == log[..i];
      total := total + 1;
      if line.path !in files {
        files := files + [line.path];
      }
      needed := ScanLine(required, log[..i], line, finds, max, needed);
      banned := ScanLine(forbidden, log[..i], line, finds, max, banned);
    }
    assert log[..|log|] == log;
  }

  /** verify_log_contract */
  method VerifyLogContract(log: seq<LogLine>, finds: Finds, required: seq<string>, forbidden: seq<string>, max: nat)
    returns (r: ContractReport)
    ensures IsReport(r, log, finds, required, forbidden, max)
    ensures forall p :: p in forbidden && Occurs(log, finds, p) <==>
                        exists v :: v in r.violations && v.pattern == p && v.kind.ForbiddenPresent?
    ensures forall p :: p in required && !Occurs(log, finds, p) <==>
                        exists v :: v in r.violations && v.pattern == p && v.kind.RequiredMissing?
    ensures forall v :: v in r.violations && v.kind.ForbiddenPresent? ==>
              && v.count ==
                 CountIf(forbidden, Equals(v.pattern)) * |set i | 0 <= i < |log| && finds(v.pattern, log[i].text)|
              && v.samples == Take(MatchesOf(log, finds, forbidden, v.pattern), max)
    ensures forall v :: v in r.violations && v.kind.RequiredMissing? ==> v.count == 0 && v.samples == []
    ensures forall i, j :: 0 <= i < j < |r.violations| && r.violations[i].kind.RequiredMissing? ==>
              r.violations[j].kind.RequiredMissing?
  {
    hide AllTallied, Present, Absent, MatchesOf, CountIf, Take, Equals;
    var files, total, needed, banned := ScanContract(log, finds, required, forbidden, max);
    var violations := CollectPresent(log, finds, forbidden, max, banned);
    var missing := CollectAbsent(log, finds, required, max, needed);
    violations := violations + missing;
    r := ContractReport(violations == [], files, total, |required|, |forbidden|, violations);
    ViolationsMean(r, log, finds, required, forbidden, max);
  }

  method CollectPresent(ghost log: seq<LogLine>, ghost finds: Finds, forbidden: seq<string>, ghost max: nat,
                        banned: map<string, PatternReport>)
    returns (violations: seq<Violation>)
    requires AllTallied(banned, log, finds, forbidden, max)
    ensures violations == Present(log, finds, forbidden, max, forbidden)
  {
    hide MatchesOf, Take;
    violations := [];
    for k := 0 to |forbidden|
      invariant violations == Present(log, finds, forbidden, max, forbidden[..k])
    {
      var p := forbidden[k];
      assert forbidden[..k + 1][..k] == forbidden[..k];
      assert Tallied(banned[p], MatchesOf(log, finds, forbidden, p), max);
      if banned[p].count != 0 {
        violations := violations + [Violation(p, ForbiddenPresent, banned[p].count, banned[p].samples)];
      }
    }
    assert forbidden[..|forbidden|] == forbidden;
  }

  method CollectAbsent(ghost log: seq<LogLine>, ghost finds: Finds, required: seq<string>, ghost max: nat,
                       needed: map<string, PatternReport>)
    returns (violations: seq<Violation>)
    requires AllTallied(needed, log, finds, required, max)
    ensures violations == Absent(log, finds, required, required)
  {
    hide MatchesOf, Take;
    violations := [];
    for k := 0 to |required|
      invariant violations == Absent(log, finds, required, required[..k])
    {
      var p := required[k];
      assert required[..k + 1][..k] == required[..k];
      assert Tallied(needed[p], MatchesOf(log, finds, required, p), max);
      if needed[p].count == 0 {
        violations := violations + [Violation(p, RequiredMissing, 0, [])];
      }
    }
    assert required[..|required|] == required;
  }

  // ---- what the report means ----

  ghost predicate Occurs(log: seq<LogLine>, finds: Finds, p: string) {
    exists l :: l in log && finds(p, l.text)
  }

  ghost predicate ContractHolds(log: seq<LogLine>, finds: Finds, required: seq<string>, forbidden: seq<string>) {
    && (forall p :: p in required ==> Occurs(log, finds, p))
    && (forall p :: p in forbidden ==> !Occurs(log, finds, p))
  }

  lemma {:induction false} MatchedIfListed(log: seq<LogLine>, finds: Finds, patterns: seq<string>, p: string)
    requires p in patterns
    ensures MatchesOf(log, finds, patterns, p) != [] <==> Occurs(log, finds, p)
  {
    if log != [] {
      var t, line := log[..|log| - 1], log[|log| - 1];
      MatchedIfListed(t, finds, patterns, p);
      CountsSome(patterns, Equals(p));
      assert Equals(p)(p);
      assert forall l :: l in log <==> l in t || l == line;
    }
  }

  function FoundIn(finds: Finds, p: string): LogLine -> bool {
    (l: LogLine) => finds(p, l.text)
  }

  /** The matches of a pattern listed once are the lines it is found in, so its count and samples are theirs. */
  lemma {:induction false} ListedOnceCountsLines(log: seq<LogLine>, finds: Finds, patterns: seq<string>, p: string)
    requires CountIf(patterns, Equals(p)) == 1
    ensures MatchesOf(log, finds, patterns, p) == Filter(log, FoundIn(finds, p))
  {
    if log != [] {
      ListedOnceCountsLines(log[..|log| - 1], finds, patterns, p);
    }
  }

  lemma {:induction false} PresentMeans(log: seq<LogLine>, finds: Finds, forbidden: seq<string>, max: nat,
                                        ps: seq<string>)
    ensures Present(log, finds, forbidden, max, ps) == [] <==>
            forall p :: p in ps ==> MatchesOf(log, finds, forbidden, p) == []
  {
    hide MatchesOf;
    if ps != [] {
      var t, q := ps[..|ps| - 1], ps[|ps| - 1];
      PresentMeans(log, finds, forbidden, max, t);
      assert |Present(log, finds, forbidden, max, ps)| ==
             |Present(log, finds, forbidden, max, t)| + if MatchesOf(log, finds, forbidden, q) == [] then 0 else 1;
      assert q in ps && forall p :: p in ps <==> p in t || p == q;
    }
  }

  lemma {:induction false} AbsentMeans(log: seq<LogLine>, finds: Finds, required: seq<string>, ps: seq<string>)
    ensures Absent(log, finds, required, ps) == [] <==>
            forall p :: p in ps ==> MatchesOf(log, finds, required, p) != []
  {
    hide MatchesOf;
    if ps != [] {
      var t, q := ps[..|ps| - 1], ps[|ps| - 1];
      AbsentMeans(log, finds, required, t);
      assert |Absent(log, finds, required, ps)| ==
             |Absent(log, finds, required, t)| + if MatchesOf(log, finds, required, q) == [] then 1 else 0;
      assert q in ps && forall p :: p in ps <==> p in t || p == q;
    }
  }

  /** The contract is reported as met exactly if every required pattern occurs and no forbidden one does. */
  lemma PassesIffHolds(r: ContractReport, log: seq<LogLine>, finds: Finds, required: seq<string>,
                       forbidden: seq<string>, max: nat)
    requires IsReport(r, log, finds, required, forbidden, max)
    ensures r.passed <==> ContractHolds(log, finds, required, forbidden)
  {
    hide MatchesOf, Occurs, Present, Absent;
    PresentMeans(log, finds, forbidden, max, forbidden);
    AbsentMeans(log, finds, required, required);
    forall p | p in required
      ensures MatchesOf(log, finds, required, p) != [] <==> Occurs(log, finds, p)
    {
      MatchedIfListed(log, finds, required, p);
    }
    forall p | p in forbidden
      ensures MatchesOf(log, finds, forbidden, p) != [] <==> Occurs(log, finds, p)
    {
      MatchedIfListed(log, finds, forbidden, p);
    }
  }

  // As often as the pattern is listed, the lines it is found in.
  lemma {:induction false} MatchesTimesListed(log: seq<LogLine>, finds: Finds, patterns: seq<string>, p: string)
    ensures |MatchesOf(log, finds, patterns, p)| == CountIf(patterns, Equals(p)) * CountIf(log, FoundIn(finds, p))
  {
    if log != [] {
      var t, n := log[..|log| - 1], CountIf(patterns, Equals(p));
      MatchesTimesListed(t, finds, patterns, p);
      Distribute(n, CountIf(t, FoundIn(finds, p)));
    }
  }

  lemma Distribute(n: nat, k: nat)
    ensures n * (k + 1) == n * k + n
  {
  }

  lemma {:induction false} PresentAre(log: seq<LogLine>, finds: Finds, forbidden: seq<string>, max: nat,
                                      ps: seq<string>)
    requires forall p :: p in ps ==> p in forbidden
    ensures forall p :: p in ps && Occurs(log, finds, p) ==>
              exists v :: v in Present(log, finds, forbidden, max, ps) && v.pattern == p && v.kind.ForbiddenPresent?
    ensures forall v :: v in Present(log, finds, forbidden, max, ps) ==>
              && v.kind.ForbiddenPresent? && v.pattern in ps && Occurs(log, finds, v.pattern)
              && v.count == |MatchesOf(log, finds, forbidden, v.pattern)|
              && v.samples == Take(MatchesOf(log, finds, forbidden, v.pattern), max)
  {
    hide MatchesOf, Occurs, Take;
    if ps != [] {
      var t, q := ps[..|ps| - 1], ps[|ps| - 1];
      PresentAre(log, finds, forbidden, max, t);
      MatchedIfListed(log, finds, forbidden, q);
      var hits := MatchesOf(log, finds, forbidden, q);
      var last := if hits == [] then [] else [Violation(q, ForbiddenPresent, |hits|, Take(hits, max))];
      var all := Present(log, finds, forbidden, max, ps);
      assert all == Present(log, finds, forbidden, max, t) + last;
      assert forall v :: v in all <==> v in Present(log, finds, forbidden, max, t) || v in last;
      assert forall p :: p in ps <==> p in t || p == q;
      if Occurs(log, finds, q) {
        assert last[0] in all;
      }
    }
  }

  lemma {:induction false} AbsentAre(log: seq<LogLine>, finds: Finds, required: seq<string>, ps: seq<string>)
    requires forall p :: p in ps ==> p in required
    ensures forall p :: p in ps && !Occurs(log, finds, p) ==>
              exists v :: v in Absent(log, finds, required, ps) && v.pattern == p && v.kind.RequiredMissing?
    ensures forall v :: v in Absent(log, finds, required, ps) ==>
              && v.kind.RequiredMissing? && v.pattern in ps && !Occurs(log, finds, v.pattern)
              && v.count == 0 && v.samples == []
  {
    hide MatchesOf, Occurs;
    if ps != [] {
      var t, q := ps[..|ps| - 1], ps[|ps| - 1];
      AbsentAre(log, finds, required, t);
      MatchedIfListed(log, finds, required, q);
      var last := if MatchesOf(log, finds, required, q) != [] then [] else [Violation(q, RequiredMissing, 0, [])];
      var all := Absent(log, finds, required, ps);
      assert all == Absent(log, finds, required, t) + last;
      assert forall v :: v in all <==> v in Absent(log, finds, required, t) || v in last;
      assert forall p :: p in ps <==> p in t || p == q;
      if !Occurs(log, finds, q) {
        assert last[0] in all;
      }
    }
  }

  // The forbidden patterns that occur come first, with their counts and samples, then the required ones that do not.
  lemma ViolationsMean(r: ContractReport, log: seq<LogLine>, finds: Finds, required: seq<string>,
                       forbidden: seq<string>, max: nat)
    requires IsReport(r, log, finds, required, forbidden, max)
    ensures forall p :: p in forbidden && Occurs(log, finds, p) <==>
                        exists v :: v in r.violations && v.pattern == p && v.kind.ForbiddenPresent?
    ensures forall p :: p in required && !Occurs(log, finds, p) <==>
                        exists v :: v in r.violations && v.pattern == p && v.kind.RequiredMissing?
    ensures forall v :: v in r.violations && v.kind.ForbiddenPresent? ==>
              && v.count ==
                 CountIf(forbidden, Equals(v.pattern)) * |set i | 0 <= i < |log| && finds(v.pattern, log[i].text)|
              && v.samples == Take(MatchesOf(log, finds, forbidden, v.pattern), max)
    ensures forall v :: v in r.violations && v.kind.RequiredMissing? ==> v.count == 0 && v.samples == []
    ensures forall i, j :: 0 <= i < j < |r.violations| && r.violations[i].kind.RequiredMissing? ==>
              r.violations[j].kind.RequiredMissing?
  {
    hide MatchesOf, Occurs, Take, CountIf, Present, Absent;
    PresentAre(log, finds, forbidden, max, forbidden);
    AbsentAre(log, finds, required, required);
    var present, absent := Present(log, finds, forbidden, max, forbidden), Absent(log, finds, required, required);
    assert forall v :: v in r.violations <==> v in present || v in absent;
    forall v | v in r.violations && v.kind.ForbiddenPresent?
      ensures v.count ==
              CountIf(forbidden, Equals(v.pattern)) * |set i | 0 <= i < |log| && finds(v.pattern, log[i].text)|
    {
      MatchesTimesListed(log, finds, forbidden, v.pattern);
      CountsPlaces(log, FoundIn(finds, v.pattern), set i | 0 <= i < |log| && finds(v.pattern, log[i].text));
    }
    forall i | 0 <= i < |r.violations|
      ensures r.violations[i].kind.RequiredMissing? <==> i >= |present|
    {
      assert i < |present| ==> r.violations[i] in present;
      assert i >= |present| ==> r.violations[i] in absent;
    }
  }
}
