/** Which row of the sources wins for each identifier, said of the sources themselves. */
module InventoryRows {
  import opened Inventory
  import opened Lists
  import opened Text

  // A row's place: the source, its line counted from one, and the match within the line.
  datatype Place = Place(source: nat, line: nat, nth: nat)

  ghost predicate HasRow(sources: seq<Source>, p: Place) {
    && p.source < |sources| && sources[p.source].lines.Some?
    && 1 <= p.line <= |sources[p.source].lines.value|
    && p.nth < |sources[p.source].lines.value[p.line - 1].found|
  }

  ghost function RowAt(sources: seq<Source>, p: Place): Found
    requires HasRow(sources, p)
  {
    sources[p.source].lines.value[p.line - 1].found[p.nth]
  }

  // What is kept of the row at a place.
  ghost predicate TakenFrom(c: Candidate, sources: seq<Source>, p: Place)
    requires HasRow(sources, p)
  {
    var f := RowAt(sources, p);
    && c.id == f.id && c.rule == f.rule && c.priority == f.priority && c.title == f.title && c.hint == f.hint
    && c.path == sources[p.source].path && c.line == p.line
    && c.snippet == Strip(sources[p.source].lines.value[p.line - 1].text)
  }

  // The row at p is to be preferred to the one at q: priority, then the smaller line, then the earlier source, and
  // within a line the earlier match.
  ghost predicate Beats(sources: seq<Source>, p: Place, q: Place)
    requires HasRow(sources, p) && HasRow(sources, q)
  {
    var a, b := RowAt(sources, p).priority, RowAt(sources, q).priority;
    || a > b
    || (a == b && p.line < q.line)
    || (a == b && p.line == q.line && p.source < q.source)
    || (a == b && p.line == q.line && p.source == q.source && p.nth <= q.nth)
  }

  ghost predicate WinsAt(sources: seq<Source>, c: Candidate, p: Place) {
    && HasRow(sources, p) && TakenFrom(c, sources, p)
    && forall q :: HasRow(sources, q) && RowAt(sources, q).id == c.id ==> Beats(sources, p, q)
  }

  // Every identifier of a row has a winner, and a winner is the row that beats all others of its identifier.
  ghost predicate Chosen(winners: map<string, Candidate>, sources: seq<Source>) {
    && (forall q :: HasRow(sources, q) ==> RowAt(sources, q).id in winners)
    && forall id :: id in winners ==> winners[id].id == id && exists p :: WinsAt(sources, winners[id], p)
  }

  // ---- where a row is in the order of the scan ----

  ghost function Position(sources: seq<Source>, p: Place): nat
    requires HasRow(sources, p)
  {
    |AllCandidates(sources[..p.source])|
    + |LinesCandidates(sources[p.source].lines.value, sources[p.source].path, p.line - 1)| + p.nth
  }

  lemma {:induction false} LinesPrefix(lines: seq<Line>, path: string, j: nat, k: nat)
    requires j <= k <= |lines|
    ensures LinesCandidates(lines, path, j) <= LinesCandidates(lines, path, k)
  {
    if j < k {
      hide Candidates;
      LinesPrefix(lines, path, j, k - 1);
    }
  }

  lemma {:induction false} SourcesPrefix(sources: seq<Source>, j: nat)
    requires j <= |sources|
    ensures AllCandidates(sources[..j]) <= AllCandidates(sources)
  {
    if j == |sources| {
      assert sources[..j] == sources;
    } else {
      hide LinesCandidates;
      var t := sources[..|sources| - 1];
      SourcesPrefix(t, j);
      assert t[..j] == sources[..j];
    }
  }

  lemma LineAt(lines: seq<Line>, path: string, n: nat, j: nat)
    requires 1 <= n <= |lines| && j < |lines[n - 1].found|
    ensures var all := LinesCandidates(lines, path, |lines|);
            var k := |LinesCandidates(lines, path, n - 1)| + j;
            k < |all| && all[k] == CandidateOf(lines[n - 1].found[j], lines[n - 1].text, path, n)
  {
    hide CandidateOf;
    LinesPrefix(lines, path, n, |lines|);
  }

  lemma SourceStep(sources: seq<Source>, i: nat)
    requires i < |sources| && sources[i].lines.Some?
    ensures var lines := sources[i].lines.value;
            AllCandidates(sources[..i + 1]) ==
            AllCandidates(sources[..i]) + LinesCandidates(lines, sources[i].path, |lines|)
  {
    hide LinesCandidates;
    assert sources[..i + 1][..i] == sources[..i];
  }

  // The scan meets every row at its position.
  lemma RowIsThere(sources: seq<Source>, p: Place)
    requires HasRow(sources, p)
    ensures Position(sources, p) < |AllCandidates(sources)|
    ensures TakenFrom(AllCandidates(sources)[Position(sources, p)], sources, p)
    ensures Position(sources, p) < |AllCandidates(sources[..p.source + 1])|
    ensures Position(sources, p) >= |AllCandidates(sources[..p.source])|
  {
    hide LinesCandidates, AllCandidates, Strip;
    var s := sources[p.source];
    LineAt(s.lines.value, s.path, p.line, p.nth);
    SourceStep(sources, p.source);
    SourcesPrefix(sources, p.source + 1);
  }

  // A later source is scanned later.
  lemma EarlierSource(sources: seq<Source>, p: Place, q: Place)
    requires HasRow(sources, p) && HasRow(sources, q) && p.source < q.source
    ensures Position(sources, p) < Position(sources, q)
  {
    hide AllCandidates, LinesCandidates, Position;
    RowIsThere(sources, p);
    RowIsThere(sources, q);
    SourcesPrefix(sources[..q.source], p.source + 1);
    assert sources[..q.source][..p.source + 1] == sources[..p.source + 1];
  }

  lemma {:induction false} LineOf(lines: seq<Line>, path: string, n: nat, k: nat) returns (line: nat, j: nat)
    requires n <= |lines| && k < |LinesCandidates(lines, path, n)|
    ensures 1 <= line <= n && j < |lines[line - 1].found| && k == |LinesCandidates(lines, path, line - 1)| + j
  {
    var before := LinesCandidates(lines, path, n - 1);
    if k < |before| {
      line, j := LineOf(lines, path, n - 1, k);
    } else {
      line, j := n, k - |before|;
    }
  }

  // And meets nothing else.
  lemma {:induction false} PlaceOf(sources: seq<Source>, k: nat) returns (p: Place)
    requires k < |AllCandidates(sources)|
    ensures HasRow(sources, p) && Position(sources, p) == k
  {
    hide LinesCandidates;
    var t, s := sources[..|sources| - 1], sources[|sources| - 1];
    if k < |AllCandidates(t)| {
      p := PlaceOf(t, k);
      assert t[..p.source] == sources[..p.source];
    } else {
      var line, j := LineOf(s.lines.value, s.path, |s.lines.value|, k - |AllCandidates(t)|);
      p := Place(|t|, line, j);
    }
  }

  // To be preferred by place is to be no worse by position.
  lemma BeatsIsNoWorse(sources: seq<Source>, p: Place, q: Place)
    requires HasRow(sources, p) && HasRow(sources, q)
    ensures Position(sources, p) < |AllCandidates(sources)| && Position(sources, q) < |AllCandidates(sources)|
    ensures NoWorse(AllCandidates(sources), Position(sources, p), Position(sources, q)) <==> Beats(sources, p, q)
  {
    hide AllCandidates, LinesCandidates;
    RowIsThere(sources, p);
    RowIsThere(sources, q);
    if p.source < q.source {
      EarlierSource(sources, p, q);
    } else if q.source < p.source {
      EarlierSource(sources, q, p);
    }
  }

  lemma WinnerHasPlace(c: Candidate, sources: seq<Source>, k: nat) returns (p: Place)
    requires k < |AllCandidates(sources)| && Wins(AllCandidates(sources), k, c)
    ensures WinsAt(sources, c, p)
  {
    hide AllCandidates, Position, Beats, TakenFrom, NoWorse;
    p := PlaceOf(sources, k);
    RowIsThere(sources, p);
    forall q | HasRow(sources, q) && RowAt(sources, q).id == c.id
      ensures Beats(sources, p, q)
    {
      RowIsThere(sources, q);
      TakenHasId(AllCandidates(sources)[Position(sources, q)], sources, q);
      BeatsIsNoWorse(sources, p, q);
    }
  }

  lemma TakenHasId(c: Candidate, sources: seq<Source>, p: Place)
    requires HasRow(sources, p) && TakenFrom(c, sources, p)
    ensures c.id == RowAt(sources, p).id
    ensures forall d :: TakenFrom(d, sources, p) ==> d == c
  {
  }

  lemma PlaceHasWinner(c: Candidate, sources: seq<Source>, p: Place) returns (k: nat)
    requires WinsAt(sources, c, p)
    ensures k < |AllCandidates(sources)| && Wins(AllCandidates(sources), k, c)
  {
    hide AllCandidates, Position, Beats, TakenFrom, NoWorse;
    k := Position(sources, p);
    RowIsThere(sources, p);
    TakenHasId(c, sources, p);
    forall j | 0 <= j < |AllCandidates(sources)| && AllCandidates(sources)[j].id == c.id
      ensures NoWorse(AllCandidates(sources), k, j)
    {
      var q := PlaceOf(sources, j);
      RowIsThere(sources, q);
      TakenHasId(AllCandidates(sources)[j], sources, q);
      BeatsIsNoWorse(sources, p, q);
    }
  }

  /** The winners are determined by the rows of the sources, each kept as it stands at its place. */
  lemma BestIffChosen(winners: map<string, Candidate>, sources: seq<Source>)
    ensures Best(winners, AllCandidates(sources)) <==> Chosen(winners, sources)
  {
    hide AllCandidates, Position, WinsAt, Wins, TakenFrom;
    var seen := AllCandidates(sources);
    if Best(winners, seen) {
      forall q | HasRow(sources, q)
        ensures RowAt(sources, q).id in winners
      {
        RowIsThere(sources, q);
        TakenHasId(seen[Position(sources, q)], sources, q);
      }
      forall id | id in winners
        ensures exists p :: WinsAt(sources, winners[id], p)
      {
        var k :| 0 <= k < |seen| && Wins(seen, k, winners[id]);
        var p := WinnerHasPlace(winners[id], sources, k);
      }
    }
    if Chosen(winners, sources) {
      forall j | 0 <= j < |seen|
        ensures seen[j].id in winners
      {
        var q := PlaceOf(sources, j);
        RowIsThere(sources, q);
        TakenHasId(seen[j], sources, q);
      }
      forall id | id in winners
        ensures exists k :: 0 <= k < |seen| && Wins(seen, k, winners[id])
      {
        var p :| WinsAt(sources, winners[id], p);
        var k := PlaceHasWinner(winners[id], sources, p);
      }
    }
  }
}
