/** The source-row candidate inventory: which explicit rows the prompt sources hold, and how it is reported. */
module Inventory {
  import opened Lists
  import opened Text

  // A calendar date, written as the number yyyymmdd.
  type Date = d: nat | d < 100_000_000

  // One match of a row recogniser in a line. The hint is empty where the recogniser gives none.
  datatype Found = Found(id: string, rule: string, priority: int, title: string, hint: string)

  // A source line, what the marker tests and the row recognisers make of it, and the dates it names.
  datatype Line = Line(
    text: string, heading: bool, tableRow: bool, numbered: bool, bullet: bool, found: seq<Found>, dates: seq<Date>)

  // A prompt source under its logical path; without lines it could not be read, for the reason given.
  datatype Source = Source(path: string, lines: Option<seq<Line>>, error: string)

  datatype Candidate = Candidate(
    id: string, rule: string, priority: int, path: string, line: nat, title: string, snippet: string, hint: string)

  // ---- choosing one candidate per id ----

  function Choose(existing: Option<Candidate>, c: Candidate): Candidate {
    if existing.None? then c
    else if c.priority > existing.value.priority then c
    else if c.priority == existing.value.priority && c.line < existing.value.line then c
    else existing.value
  }

  function CandidateOf(f: Found, text: string, path: string, line: nat): Candidate {
    Candidate(f.id, f.rule, f.priority, path, line, f.title, Strip(text), f.hint)
  }

  function Candidates(l: Line, path: string, line: nat): seq<Candidate> {
    seq(|l.found|, i requires 0 <= i < |l.found| => CandidateOf(l.found[i], l.text, path, line))
  }

  // Every candidate of the first k lines of a source, in scan order; lines count from one.
  function LinesCandidates(lines: seq<Line>, path: string, k: nat): seq<Candidate>
    requires k <= |lines|
  {
    if k == 0 then [] else LinesCandidates(lines, path, k - 1) + Candidates(lines[k - 1], path, k)
  }

  function AllCandidates(sources: seq<Source>): seq<Candidate> {
    if sources == [] then [] else
      var s := sources[|sources| - 1];
      AllCandidates(sources[..|sources| - 1]) +
      match s.lines case None => [] case Some(ls) => LinesCandidates(ls, s.path, |ls|)
  }

  // The candidate at position k is no worse than the one at j: priority, then line, then order seen.
  ghost predicate NoWorse(seen: seq<Candidate>, k: nat, j: nat)
    requires k < |seen| && j < |seen|
  {
    || seen[k].priority > seen[j].priority
    || (seen[k].priority == seen[j].priority && seen[k].line < seen[j].line)
    || (seen[k].priority == seen[j].priority && seen[k].line == seen[j].line && k <= j)
  }

  ghost predicate Wins(seen: seq<Candidate>, k: nat, c: Candidate)
    requires k < |seen|
  {
    seen[k] == c && forall j :: 0 <= j < |seen| && seen[j].id == c.id ==> NoWorse(seen, k, j)
  }

  // One winner per id that was seen, and it is the best of its id.
  ghost predicate Best(winners: map<string, Candidate>, seen: seq<Candidate>) {
    && (forall j :: 0 <= j < |seen| ==> seen[j].id in winners)
    && (forall id :: id in winners ==>
          winners[id].id == id && exists k :: 0 <= k < |seen| && Wins(seen, k, winners[id]))
  }

  lemma WinnersAgree(seen: seq<Candidate>, k: nat, c: Candidate, j: nat, d: Candidate)
    requires k < |seen| && j < |seen| && Wins(seen, k, c) && Wins(seen, j, d) && c.id == d.id
    ensures c == d
  {
    assert NoWorse(seen, k, j) && NoWorse(seen, j, k);
  }

  /** What has been seen determines the winners. */
  lemma BestIsUnique(a: map<string, Candidate>, b: map<string, Candidate>, seen: seq<Candidate>)
    requires Best(a, seen) && Best(b, seen)
    ensures a == b
  {
    SeenIds(a, seen);
    SeenIds(b, seen);
    forall id | id in a
      ensures id in b && a[id] == b[id]
    {
      var k :| 0 <= k < |seen| && Wins(seen, k, a[id]);
      var j :| 0 <= j < |seen| && Wins(seen, j, b[id]);
      WinnersAgree(seen, k, a[id], j, b[id]);
    }
    assert a.Keys == b.Keys;
  }

  lemma SeenIds(winners: map<string, Candidate>, seen: seq<Candidate>)
    requires Best(winners, seen)
    ensures forall id :: id in winners <==> exists k :: 0 <= k < |seen| && seen[k].id == id
  {
    forall id | id in winners
      ensures exists k :: 0 <= k < |seen| && seen[k].id == id
    {
      var k :| 0 <= k < |seen| && Wins(seen, k, winners[id]);
    }
  }

  lemma WinnerStays(seen: seq<Candidate>, k: nat, c: Candidate, w: Candidate)
    requires k < |seen| && Wins(seen, k, w)
    requires c.id != w.id || !(c.priority > w.priority || (c.priority == w.priority && c.line < w.line))
    ensures Wins(seen + [c], k, w)
  {
  }

  lemma ChooseKeepsBest(winners: map<string, Candidate>, seen: seq<Candidate>, c: Candidate)
    requires Best(winners, seen)
    ensures Best(winners[c.id := Choose(if c.id in winners then Some(winners[c.id]) else None, c)], seen + [c])
  {
    var chosen := Choose(if c.id in winners then Some(winners[c.id]) else None, c);
    var now, all := winners[c.id := chosen], seen + [c];
    forall id | id in now
      ensures now[id].id == id && exists k :: 0 <= k < |all| && Wins(all, k, now[id])
    {
      if id == c.id && chosen == c && (id !in winners || winners[id] != c) {
        NewWinner(winners, seen, c);
        assert Wins(all, |seen|, c);
      } else {
        var k :| 0 <= k < |seen| && Wins(seen, k, winners[id]);
        WinnerStays(seen, k, c, winners[id]);
      }
    }
  }

  lemma NewWinner(winners: map<string, Candidate>, seen: seq<Candidate>, c: Candidate)
    requires Best(winners, seen)
    requires c.id in winners ==> c.priority > winners[c.id].priority
                                 || (c.priority == winners[c.id].priority && c.line < winners[c.id].line)
    ensures Wins(seen + [c], |seen|, c)
  {
    if c.id in winners {
      var k :| 0 <= k < |seen| && Wins(seen, k, winners[c.id]);
      forall j | 0 <= j < |seen| && seen[j].id == c.id
        ensures NoWorse(seen + [c], |seen|, j)
      {
        assert NoWorse(seen, k, j);
      }
    }
  }

  // The innermost loop: the candidates of one line.
  method ScanLine(l: Line, path: string, line: nat, before: map<string, Candidate>, ghost seen: seq<Candidate>)
    returns (winners: map<string, Candidate>)
    requires Best(before, seen)
    ensures Best(winners, seen + Candidates(l, path, line))
  {
    hide Best, Choose, CandidateOf;
    winners := before;
    ghost var cs := Candidates(l, path, line);
    assert seen + cs[..0] == seen;
    for i := 0 to |l.found|
      invariant Best(winners, seen + cs[..i])
    {
      var c := CandidateOf(l.found[i], l.text, path, line);
      ChooseKeepsBest(winners, seen + cs[..i], c);
      assert seen + cs[..i + 1] == (seen + cs[..i]) + [c];
      winners := winners[c.id := Choose(if c.id in winners then Some(winners[c.id]) else None, c)];
    }
    assert cs[..|l.found|] == cs;
  }

  // One source, line by line.
  method ScanSource(lines: seq<Line>, path: string, before: map<string, Candidate>, ghost seen: seq<Candidate>)
    returns (winners: map<string, Candidate>)
    requires Best(before, seen)
    ensures Best(winners, seen + LinesCandidates(lines, path, |lines|))
  {
    hide Best, Candidates;
    winners := before;
    assert seen + [] == seen;
    for i := 0 to |lines|
      invariant Best(winners, seen + LinesCandidates(lines, path, i))
    {
      ghost var here := LinesCandidates(lines, path, i);
      winners := ScanLine(lines[i], path, i + 1, winners, seen + here);
      assert seen + LinesCandidates(lines, path, i + 1) == (seen + here) + Candidates(lines[i], path, i + 1);
    }
  }

  method CollectCandidates(sources: seq<Source>) returns (winners: map<string, Candidate>)
    ensures Best(winners, AllCandidates(sources))
  {
    winners := map[];
    assert Best(winners, []);
    hide Best, LinesCandidates;
    for s := 0 to |sources|
      invariant Best(winners, AllCandidates(sources[..s]))
    {
      ghost var seen := AllCandidates(sources[..s]);
      assert sources[..s + 1][..s] == sources[..s];
      assert seen + [] == seen;
      if sources[s].lines.Some? {
        winners := ScanSource(sources[s].lines.value, sources[s].path, winners, seen);
      }
    }
    assert sources[..|sources|] == sources;
  }
}
