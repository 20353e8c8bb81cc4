/** What the identity split leaves in a keeper's configuration file, and the plan that drives it. */
module KeeperFile {
  import opened Lists
  import opened Text
  import opened TomlLines
  import opened KeeperToml

  ghost predicate AllLines(ls: seq<string>) {
    forall i :: 0 <= i < |ls| ==> IsLine(ls[i])
  }

  // r has the lines of ls with their endings, and behind them only finished lines.
  ghost predicate Extends(r: seq<string>, ls: seq<string>) {
    && AllLines(r) && |ls| <= |r|
    && (forall i :: 0 <= i < |ls| ==> EndsWithNewline(r[i]) == EndsWithNewline(ls[i]))
    && (forall i :: |ls| <= i < |r| ==> EndsWithNewline(r[i]))
  }

  lemma ExtendsTrans(a: seq<string>, b: seq<string>, c: seq<string>)
    requires Extends(b, a) && Extends(c, b)
    ensures Extends(c, a)
  {
    hide IsLine, EndsWithNewline;
  }

  lemma SetFieldExtends(before: seq<string>, body: seq<string>, key: string, value: string)
    requires BareKey(key) && Plain(value) && AllLines(before + body)
    ensures Extends(before + SetField(body, key, value), before + body)
  {
    hide Assignment, Rewritten, NewLine, BareKey, Plain, IsLine, EndsWithNewline, FirstIndex;
    var i, ls := Assigning(body, key), before + body;
    var r := before + SetField(body, key, value);
    AssigningInside(body, key);
    if i < |body| {
      assert ls[|before| + i] == body[i];
      RewrittenIsLine(key, body[i], value);
      RewrittenIsFixed(key, body[i], value);
      assert r == ls[|before| + i := Rewritten(Assignment(key, body[i]).value, value, body[i])];
    } else {
      NewLineIsLine(key, value);
      assert r == ls + [NewLine(key, value)];
    }
  }

  lemma EditedExtends(before: seq<string>, body: seq<string>, identity: string)
    requires Plain(identity) && AllLines(before + body)
    ensures Extends(before + Edited(body, identity), before + body)
  {
    KeysAreBare();
    hide BareKey, Plain, IDENTITY, MODE, SetField, IsLine, EndsWithNewline;
    var once := SetField(body, IDENTITY, identity);
    SetFieldExtends(before, body, IDENTITY, identity);
    SetFieldExtends(before, once, MODE, IDENTITY);
    ExtendsTrans(before + body, before + once, before + Edited(body, identity));
  }

  // ---- lines glued together ----

  // Lines j and j + 1 as one.
  function Glued(ls: seq<string>, j: nat): seq<string>
    requires j + 1 < |ls|
  {
    ls[..j] + [ls[j] + ls[j + 1]] + ls[j + 2..]
  }

  lemma {:induction false} JoinConcat(a: seq<string>, b: seq<string>)
    ensures JoinLines(a + b) == JoinLines(a) + JoinLines(b)
  {
    if a == [] {
      assert a + b == b;
    } else {
      JoinConcat(a[1..], b);
      assert (a + b)[1..] == a[1..] + b;
    }
  }

  // The same text.
  lemma GluedJoins(ls: seq<string>, j: nat)
    requires j + 1 < |ls|
    ensures JoinLines(Glued(ls, j)) == JoinLines(ls)
  {
    hide JoinLines;
    var a, b, c := ls[..j], [ls[j], ls[j + 1]], ls[j + 2..];
    var g := [ls[j] + ls[j + 1]];
    assert ls == a + (b + c) && Glued(ls, j) == a + (g + c);
    JoinConcat(a, b + c);
    JoinConcat(b, c);
    JoinConcat(a, g + c);
    JoinConcat(g, c);
    PairJoins(ls[j], ls[j + 1]);
  }

  lemma PairJoins(x: string, y: string)
    ensures JoinLines([x, y]) == JoinLines([x + y]) == x + y
  {
    assert [x, y][1..] == [y] && [y][1..] == [] && [x + y][1..] == [];
    assert JoinLines([y]) == y + JoinLines([]);
    assert JoinLines([x, y]) == x + JoinLines([y]);
    assert JoinLines([x + y]) == (x + y) + JoinLines([]);
  }

  lemma GluedLine(x: string, y: string)
    requires IsLine(x) && !EndsWithNewline(x) && IsLine(y)
    ensures IsLine(x + y) && EndsWithNewline(x + y) == EndsWithNewline(y)
  {
  }

  lemma GluedWellSplit(r: seq<string>, ls: seq<string>)
    requires WellSplit(ls) && ls != [] && !EndsWithNewline(ls[|ls| - 1]) && Extends(r, ls) && |ls| < |r|
    ensures WellSplit(Glued(r, |ls| - 1))
  {
    hide IsLine, EndsWithNewline;
    GluedLine(r[|ls| - 1], r[|ls|]);
  }

  // ---- the file ----

  // No line has to be inserted behind an unfinished last line.
  ghost predicate Clean(lines: seq<string>)
    requires Bounds(lines).Some?
  {
    || Bounds(lines).value.1 < |lines|
    || (lines != [] && EndsWithNewline(lines[|lines| - 1]))
    || (FieldValue(Section(lines), IDENTITY).Some? && FieldValue(Section(lines), MODE).Some?)
  }

  lemma SectionNeedsLines(lines: seq<string>)
    requires Bounds(lines).Some?
    ensures lines != []
  {
    SectionInside(lines);
  }

  lemma UpdatedExtends(lines: seq<string>, identity: string)
    requires Bounds(lines).Some? && WellSplit(lines) && Plain(identity) && Bounds(lines).value.1 == |lines|
    ensures Extends(Updated(lines, identity).value, lines)
  {
    hide FirstIndex, Edited, IsLine, EndsWithNewline, Plain;
    var (start, end) := Bounds(lines).value;
    SectionInside(lines);
    var before, body := lines[..start + 1], lines[start + 1..end];
    assert before + body == lines && lines[end..] == [];
    EditedExtends(before, body, identity);
    assert Updated(lines, identity).value == before + Edited(body, identity);
  }

  lemma NotCleanGrows(lines: seq<string>, identity: string)
    requires Bounds(lines).Some? && WellSplit(lines) && Plain(identity) && !Clean(lines)
    ensures |Updated(lines, identity).value| > |lines|
  {
    hide WellSplit, Plain, EndsWithNewline, FieldValue, Bounds, Edited, Assigning;
    SectionInside(lines);
    var (start, end) := Bounds(lines).value;
    var body := lines[start + 1..end];
    FieldValueSome(body, IDENTITY);
    FieldValueSome(body, MODE);
    AssigningInside(body, IDENTITY);
    EditedGrows(body, identity);
  }

  lemma EditedGrows(body: seq<string>, identity: string)
    requires Plain(identity) && (Assigning(body, IDENTITY) >= |body| || Assigning(body, MODE) >= |body|)
    ensures |Edited(body, identity)| > |body|
  {
    KeysAreBare();
    hide SetField, Assigning, BareKey, Plain, IDENTITY, MODE;
    var once := SetField(body, IDENTITY, identity);
    SetFieldGrows(body, IDENTITY, identity);
    SetFieldGrows(once, MODE, IDENTITY);
    SetFieldKeepsOther(body, IDENTITY, identity, MODE);
    AssigningInside(body, IDENTITY);
    AssigningInside(body, MODE);
  }

  /** The lines of the joined text are the updated ones, or, exactly if a line was inserted behind an unfinished last
      line, those with the inserted line glued to that one. */
  lemma JoinedLines(lines: seq<string>, identity: string)
    requires Bounds(lines).Some? && WellSplit(lines) && Plain(identity)
    ensures var r := Updated(lines, identity).value;
            && (Clean(lines) <==> SplitLines(JoinLines(r)) == r)
            && (!Clean(lines) ==> |lines| < |r| && SplitLines(JoinLines(r)) == Glued(r, |lines| - 1))
  {
    hide *;
    JoinedClean(lines, identity);
    if !Clean(lines) {
      NotCleanEnds(lines);
      UpdatedExtends(lines, identity);
      NotCleanGrows(lines, identity);
      var r := Updated(lines, identity).value;
      GluedWellSplit(r, lines);
      GluedJoins(r, |lines| - 1);
      RereadExactly([], Glued(r, |lines| - 1));
    }
  }

  lemma JoinedClean(lines: seq<string>, identity: string)
    requires Bounds(lines).Some? && WellSplit(lines) && Plain(identity)
    ensures Updated(lines, identity).Some?
    ensures var r := Updated(lines, identity).value; Clean(lines) <==> SplitLines(JoinLines(r)) == r
  {
    hide FirstIndex, Bounds, Edited, WellSplit, Plain, EndsWithNewline, FieldValue, JoinLines, SplitLines, Section;
    SectionNeedsLines(lines);
    UpdateIsReread(lines, identity);
  }

  lemma NotCleanEnds(lines: seq<string>)
    requires Bounds(lines).Some? && !Clean(lines)
    ensures lines != [] && Bounds(lines).value.1 == |lines| && !EndsWithNewline(lines[|lines| - 1])
  {
    hide Bounds, EndsWithNewline, FieldValue;
    SectionInside(lines);
  }

  /** A file is written only with a text that parses to both values; its lines are then those of the joined text. */
  lemma SavedFileHolds(lines: seq<string>, identity: string, parse: Parser)
    requires WellSplit(lines) && Plain(identity)
    ensures var o := OutcomeOf(lines, identity, parse);
            && (o.Saved? <==>
                  && Bounds(lines).Some?
                  && parse(JoinLines(Updated(lines, identity).value)) == Some(Keeper(Some(identity), Some(IDENTITY))))
            && (o.Saved? ==>
                  var r := Updated(lines, identity).value;
                  && parse(o.text) == Some(Keeper(Some(identity), Some(IDENTITY)))
                  && (if Clean(lines) then SplitLines(o.text) == r
                      else |lines| < |r| && SplitLines(o.text) == Glued(r, |lines| - 1)))
  {
    hide FirstIndex, Bounds, Edited, WellSplit, Plain, Clean, Glued, JoinLines, SplitLines, IDENTITY;
    if Bounds(lines).Some? {
      JoinedLines(lines, identity);
    }
  }

  /** A second run on a file that was written clean writes the same text again. */
  lemma SecondRunIsIdle(lines: seq<string>, identity: string, parse: Parser)
    requires Bounds(lines).Some? && WellSplit(lines) && Plain(identity) && Clean(lines)
    requires OutcomeOf(lines, identity, parse).Saved?
    ensures var first := OutcomeOf(lines, identity, parse);
            OutcomeOf(SplitLines(first.text), identity, parse) == first
  {
    hide FirstIndex, WellSplit, Plain, EndsWithNewline, FieldValue, JoinLines, SplitLines, Clean, Edited;
    SavedFileHolds(lines, identity, parse);
    UpdateIsSound(lines, identity);
  }

  // ---- a file that is written although its lines are glued ----

  const QUOTED := "github_identity = 'bob' # main"

  const QUOTED_FILE := ["[keeper]\n", QUOTED]

  const GLUED_LINE := QUOTED + "github_identity = \"bob\"\n"

  const MODE_LINE := "git_identity_mode = \"github_identity\"\n"

  lemma {:induction false} BeforeNone(s: string, c: char)
    requires c !in s
    ensures Before(s, c) == s
  {
    if s != [] {
      BeforeNone(s[1..], c);
    }
  }

  lemma HeaderStrips(header: string)
    requires header != [] && !IsSpace(header[0]) && !IsSpace(header[|header| - 1]) && '#' !in header
    ensures Strip(Before(Strip(header + "\n"), '#')) == header
  {
    var line := header + "\n";
    StripsToItself(header);
    BeforeNone(header, '#');
    assert line[0] == header[0] && line[Lead(line)..] == line && line[..|line| - 1] == header;
    assert StripRight(line) == StripRight(header);
  }

  lemma KeeperHeader()
    ensures IsKeeperHeader("[keeper]\n")
  {
    hide Strip, Before;
    HeaderStrips("[keeper]");
    assert "[keeper]" + "\n" == "[keeper]\n";
  }

  lemma QuotedChars()
    ensures |QUOTED| > 20 && QUOTED[0] == 'g' && QUOTED[3] == 'h' && QUOTED[|QUOTED| - 1] == 'n'
    ensures QUOTED[15] == ' ' && QUOTED[16] == '=' && QUOTED[17] == ' ' && QUOTED[18] == '\''
  {
  }

  lemma NoHeader(line: string)
    requires line != [] && !IsSpace(line[0]) && line[0] != '['
    ensures !IsSectionHeader(line)
  {
  }

  lemma QuotedIsNoHeader()
    ensures !IsSectionHeader(QUOTED)
  {
    hide IsSectionHeader;
    QuotedChars();
    NoHeader(QUOTED);
  }

  lemma QuotedIsNoIdentity()
    ensures Opening(IDENTITY, QUOTED).None?
  {
    hide Lead, IsTail, Closing;
    QuotedChars();
    assert QUOTED[15..][0] == ' ' && QUOTED[15..][1] == '=' && QUOTED[17..][0] == ' ' && QUOTED[17..][1] == '\'';
    QuotedLeads();
    assert After(QUOTED, 15, '=') == Some(16);
    assert After(QUOTED, 17, '"') == None;
    assert PastKey(IDENTITY, QUOTED).Some? ==> PastKey(IDENTITY, QUOTED) == Some(15);
  }

  lemma LeadOne(s: string)
    requires |s| > 1 && IsSpace(s[0]) && !IsSpace(s[1])
    ensures Lead(s) == 1
  {
    assert s[1..][0] == s[1];
  }

  // What the characters of such a line say of its whitespace.
  lemma LeadsOf(s: string)
    requires |s| > 18 && s[0] == 'g' && s[15] == ' ' && s[16] == '=' && s[17] == ' ' && s[18] == '\''
    ensures Lead(s) == 0 && Lead(s[15..]) == 1 && Lead(s[17..]) == 1
  {
    LeadOne(s[15..]);
    LeadOne(s[17..]);
  }

  lemma QuotedLeads()
    ensures Lead(QUOTED) == 0 && Lead(QUOTED[15..]) == 1 && Lead(QUOTED[17..]) == 1
  {
    hide Lead, QUOTED;
    QuotedChars();
    LeadsOf(QUOTED);
  }

  lemma QuotedIsNoMode()
    ensures Opening(MODE, QUOTED).None?
  {
    hide Lead, IsTail, Closing;
    QuotedLeads();
    QuotedChars();
    assert QUOTED[0..] == QUOTED;
    assert MODE[3] == '_';
    assert PastKey(MODE, QUOTED).None?;
  }

  lemma QuotedAssignsNothing()
    ensures Assignment(IDENTITY, QUOTED).None? && Assignment(MODE, QUOTED).None?
  {
    hide Lead, IsTail, Opening, Closing;
    QuotedChars();
    assert StripNewlines(QUOTED) == QUOTED;
    QuotedIsNoIdentity();
    QuotedIsNoMode();
  }

  lemma QuotedBounds()
    ensures Bounds(QUOTED_FILE) == Some((0, 2)) && WellSplit(QUOTED_FILE) && !Clean(QUOTED_FILE)
  {
    hide IsKeeperHeader, IsSectionHeader, Assignment;
    KeeperHeader();
    QuotedIsNoHeader();
    QuotedAssignsNothing();
    FirstIndexAt(QUOTED_FILE, Opens(), 0, 0);
    FirstIndexAt(QUOTED_FILE, Closes(), 1, 2);
    assert QUOTED_FILE[1..2] == [QUOTED];
    FirstIndexAt([QUOTED], Assigns(IDENTITY), 0, 1);
    assert IsLine("[keeper]\n") && IsLine(QUOTED);
    QuotedChars();
  }

  lemma QuotedEdited()
    ensures Edited([QUOTED], "bob") == [QUOTED, NewLine(IDENTITY, "bob"), NewLine(MODE, IDENTITY)]
  {
    KeysAreBare();
    hide Assignment, NewLine, IDENTITY, MODE, QUOTED, BareKey;
    QuotedAssignsNothing();
    FirstIndexAt([QUOTED], Assigns(IDENTITY), 0, 1);
    SetFieldKeepsOther([QUOTED], IDENTITY, "bob", MODE);
    FirstIndexAt([QUOTED], Assigns(MODE), 0, 1);
  }

  lemma SectionEdited(x: string, q: string, a: string, b: string, identity: string)
    requires Bounds([x, q]) == Some((0, 2)) && Edited([q], identity) == [q, a, b]
    ensures Updated([x, q], identity) == Some([x, q, a, b])
  {
    hide Bounds, Edited;
    assert [x, q][..1] == [x] && [x, q][1..2] == [q] && [x, q][2..] == [];
    assert [x] + [q, a, b] + [] == [x, q, a, b];
  }

  lemma QuotedUpdated()
    ensures Updated(QUOTED_FILE, "bob") == Some(["[keeper]\n", QUOTED, NewLine(IDENTITY, "bob"), MODE_LINE])
    ensures QUOTED + NewLine(IDENTITY, "bob") == GLUED_LINE
  {
    hide Bounds, Edited, WellSplit, Clean, Updated;
    QuotedBounds();
    QuotedEdited();
    SectionEdited("[keeper]\n", QUOTED, NewLine(IDENTITY, "bob"), NewLine(MODE, IDENTITY), "bob");
    assert NewLine(MODE, IDENTITY) == MODE_LINE;
    assert NewLine(IDENTITY, "bob") == "github_identity = \"bob\"\n";
  }

  lemma GluedQuoted(r: seq<string>, x: string, y: string, z: string, m: string)
    requires r == [x, y, z, m]
    ensures Glued(r, 1) == [x, y + z, m] && JoinLines(r) == x + (y + z) + m
  {
    hide JoinLines;
    assert Glued(r, 1) == [x, y + z, m];
    GluedJoins(r, 1);
    ThreeJoin(x, y + z, m);
  }

  /** Such a file: the parser accepts the joined text, but its lines are not the updated ones. */
  lemma GluedFileIsSaved(parse: Parser)
    requires parse("[keeper]\n" + GLUED_LINE + MODE_LINE) == Some(Keeper(Some("bob"), Some(IDENTITY)))
    ensures var o := OutcomeOf(QUOTED_FILE, "bob", parse);
            && o.Saved? && SplitLines(o.text) == ["[keeper]\n", GLUED_LINE, MODE_LINE]
            && Updated(QUOTED_FILE, "bob") == Some(["[keeper]\n", QUOTED, NewLine(IDENTITY, "bob"), MODE_LINE])
  {
    hide SplitLines, JoinLines, Bounds, Updated, Glued, WellSplit, Clean, IDENTITY, MODE_LINE, GLUED_LINE, QUOTED,
         NewLine;
    QuotedBounds();
    QuotedUpdated();
    var r := Updated(QUOTED_FILE, "bob").value;
    GluedQuoted(r, "[keeper]\n", QUOTED, NewLine(IDENTITY, "bob"), MODE_LINE);
    SavedFileHolds(QUOTED_FILE, "bob", parse);
  }

  lemma ThreeJoin(x: string, y: string, z: string)
    ensures JoinLines([x, y, z]) == x + y + z
  {
    assert [x, y, z][1..] == [y, z];
    assert JoinLines([x, y, z]) == x + JoinLines([y, z]);
    PairJoins(y, z);
    assert JoinLines([y, z]) == y + z;
  }

  // ---- the plan ----

  datatype Planned = Planned(keeper: string, path: string, identity: string, credentials: string, present: bool)

  predicate AllFiles(paths: seq<string>, isFile: string -> bool) {
    forall i :: 0 <= i < |paths| ==> isFile(paths[i])
  }

  // build_plan: the identities in turn over the configuration files; None if one of those is no file.
  method BuildPlan(identities: seq<string>, paths: seq<string>, isFile: string -> bool, stem: string -> string,
                   credentials: string -> string, isDir: string -> bool)
    returns (plan: Option<seq<Planned>>)
    requires identities != []
    ensures plan.Some? <==> AllFiles(paths, isFile)
    ensures plan.Some? ==> |plan.value| == |paths|
    ensures plan.Some? ==> forall i :: 0 <= i < |paths| ==>
              && plan.value[i].keeper == stem(paths[i]) && plan.value[i].path == paths[i]
              && plan.value[i].identity == identities[i % |identities|]
              && plan.value[i].credentials == credentials(plan.value[i].identity)
              && plan.value[i].present == isDir(plan.value[i].credentials)
  {
    var items: seq<Planned> := [];
    for index := 0 to |paths|
      invariant |items| == index && AllFiles(paths[..index], isFile)
      invariant forall i :: 0 <= i < index ==>
                  && items[i].keeper == stem(paths[i]) && items[i].path == paths[i]
                  && items[i].identity == identities[i % |identities|]
                  && items[i].credentials == credentials(items[i].identity)
                  && items[i].present == isDir(items[i].credentials)
    {
      if !isFile(paths[index]) {
        return None;
      }
      var identity := identities[index % |identities|];
      var dir := credentials(identity);
      items := items + [Planned(stem(paths[index]), paths[index], identity, dir, isDir(dir))];
    }
    assert paths[..|paths|] == paths;
    return Some(items);
  }
}
