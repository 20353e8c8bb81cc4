/** The keeper identity split: editing the [keeper] section of a TOML file in place. */
module KeeperToml {
  import opened Lists
  import opened TomlLines

  const IDENTITY := "github_identity"
  const MODE := "git_identity_mode"

  // ---- the section ----

  // The first index from i on at which f holds, or the length.
  function FirstIndex(s: seq<string>, f: string -> bool, i: nat): (r: nat)
    requires i <= |s|
    ensures i <= r <= |s| && (r < |s| ==> f(s[r])) && forall j :: i <= j < r ==> !f(s[j])
    decreases |s| - i
  {
    if i == |s| || f(s[i]) then i else FirstIndex(s, f, i + 1)
  }

  lemma {:induction false} FirstIndexAt(s: seq<string>, f: string -> bool, i: nat, r: nat)
    requires i <= r <= |s| && (r < |s| ==> f(s[r])) && forall j :: i <= j < r ==> !f(s[j])
    ensures FirstIndex(s, f, i) == r
    decreases r - i
  {
    if i < r {
      FirstIndexAt(s, f, i + 1, r);
    }
  }

  function Assigns(key: string): string -> bool {
    (line: string) => Assignment(key, line).Some?
  }

  function Opens(): string -> bool {
    (line: string) => IsKeeperHeader(line)
  }

  function Closes(): string -> bool {
    (line: string) => IsSectionHeader(line)
  }

  // The keeper header's index and the index of the next section header, or the end.
  function Bounds(lines: seq<string>): Option<(nat, nat)> {
    var start := FirstIndex(lines, Opens(), 0);
    if start == |lines| then None else Some((start, FirstIndex(lines, Closes(), start + 1)))
  }

  // ---- one field of a section body ----

  // The first line of the body that assigns the key, or its length.
  function Assigning(body: seq<string>, key: string): nat {
    FirstIndex(body, Assigns(key), 0)
  }

  function SetField(body: seq<string>, key: string, value: string): seq<string> {
    var i := Assigning(body, key);
    if i < |body| then body[i := Rewritten(Assignment(key, body[i]).value, value, body[i])]
    else body + [NewLine(key, value)]
  }

  // The value the section gives the key: that of its first assignment.
  function FieldValue(body: seq<string>, key: string): Option<string> {
    var i := Assigning(body, key);
    if i < |body| then Some(Assignment(key, body[i]).value.value) else None
  }

  function Edited(body: seq<string>, identity: string): seq<string> {
    SetField(SetField(body, IDENTITY, identity), MODE, IDENTITY)
  }

  // The whole file, when it has a keeper section.
  function Updated(lines: seq<string>, identity: string): Option<seq<string>> {
    match Bounds(lines)
    case None => None
    case Some((start, end)) =>
      Some(lines[..start + 1] + Edited(lines[start + 1..end], identity) + lines[end..])
  }

  // ---- what becomes of the file ----

  // What a TOML parser reads of the keeper table: the two values, each absent if it is missing or no string.
  datatype Parsed = NoKeeper | Keeper(identity: Option<string>, mode: Option<string>)

  // A parser refuses a text by answering None.
  type Parser = string -> Option<Parsed>

  datatype Outcome = NoSection | Unparsable | KeeperLost | IdentityLost | ModeLost | Saved(text: string)

  // The joined text is written if it parses to a keeper table that holds both values.
  function OutcomeOf(lines: seq<string>, identity: string, parse: Parser): Outcome {
    match Updated(lines, identity)
    case None => NoSection
    case Some(r) =>
      match parse(JoinLines(r))
      case None => Unparsable
      case Some(NoKeeper) => KeeperLost
      case Some(Keeper(i, m)) =>
        if i != Some(identity) then IdentityLost
        else if m != Some(IDENTITY) then ModeLost
        else Saved(JoinLines(r))
  }

  // What the parser makes of the text decides.
  ghost predicate Judged(o: Outcome, text: string, identity: string, parse: Parser) {
    var p := parse(text);
    && (o.Unparsable? <==> p == None)
    && (o.KeeperLost? <==> p == Some(NoKeeper))
    && (o.IdentityLost? <==> p.Some? && p.value.Keeper? && p.value.identity != Some(identity))
    && (o.ModeLost? <==>
        p.Some? && p.value.Keeper? && p.value.identity == Some(identity) && p.value.mode != Some("github_identity"))
    && (o == Saved(text) <==> p == Some(Keeper(Some(identity), Some("github_identity"))))
  }

  lemma OutcomeMeans(lines: seq<string>, identity: string, parse: Parser)
    ensures var o := OutcomeOf(lines, identity, parse);
            && (o.NoSection? <==> Bounds(lines).None?)
            && (Bounds(lines).Some? ==> Judged(o, JoinLines(Updated(lines, identity).value), identity, parse))
  {
    hide Edited, JoinLines, Bounds;
  }

  /** The lines of one configuration file while it is edited. */
  class ConfigLines {
    var lines: seq<string>

    constructor (content: seq<string>)
      ensures lines == content
    {
      lines := content;
    }

    // keeper_section_bounds: two index loops.
    method KeeperSectionBounds() returns (bounds: Option<(nat, nat)>)
      ensures bounds == Bounds(lines)
    {
      hide IsKeeperHeader, IsSectionHeader;
      var start := 0;
      while start < |lines| && !IsKeeperHeader(lines[start])
        invariant start <= |lines| && FirstIndex(lines, Opens(), 0) == FirstIndex(lines, Opens(), start)
      {
        start := start + 1;
      }
      if start == |lines| {
        return None;
      }
      var end := start + 1;
      while end < |lines| && !IsSectionHeader(lines[end])
        invariant start + 1 <= end <= |lines|
        invariant FirstIndex(lines, Closes(), start + 1) == FirstIndex(lines, Closes(), end)
      {
        end := end + 1;
      }
      return Some((start, end));
    }

    // set_toml_string_field: rewrites the first assignment in the section, or inserts one at its end.
    method SetTomlStringField(start: nat, end: nat, key: string, value: string) returns (newEnd: nat)
      requires start < end <= |lines|
      modifies this
      ensures lines == old(lines[..start + 1]) + SetField(old(lines[start + 1..end]), key, value) + old(lines[end..])
      ensures newEnd == start + 1 + |SetField(old(lines[start + 1..end]), key, value)|
    {
      hide Assignment, Rewritten, NewLine;
      ghost var body := lines[start + 1..end];
      var idx := start + 1;
      while idx < end && Assignment(key, lines[idx]).None?
        invariant start + 1 <= idx <= end
        invariant Assigning(body, key) == FirstIndex(body, Assigns(key), idx - start - 1)
      {
        assert lines[idx] == body[idx - start - 1];
        idx := idx + 1;
      }
      if idx < end {
        assert lines[idx] == body[idx - start - 1];
        Splice(lines, start + 1, end, idx, Rewritten(Assignment(key, lines[idx]).value, value, lines[idx]));
        lines := lines[idx := Rewritten(Assignment(key, lines[idx]).value, value, lines[idx])];
        return end;
      }
      Join(lines, start + 1, end, NewLine(key, value));
      lines := lines[..end] + [NewLine(key, value)] + lines[end..];
      return end + 1;
    }

    // update_keeper_config: edit, join, parse again, and write only what parses to the requested values.
    method UpdateKeeperConfig(identity: string, parse: Parser) returns (outcome: Outcome)
      modifies this
      ensures outcome == OutcomeOf(old(lines), identity, parse)
      ensures outcome.NoSection? <==> Bounds(old(lines)).None?
      ensures !outcome.NoSection? ==> Judged(outcome, JoinLines(lines), identity, parse)
      ensures lines == if Updated(old(lines), identity).Some? then Updated(old(lines), identity).value else old(lines)
    {
      hide SetField, FirstIndex, Judged;
      OutcomeMeans(lines, identity, parse);
      var bounds := KeeperSectionBounds();
      if bounds.None? {
        return NoSection;
      }
      SectionInside(lines);
      var (start, end) := bounds.value;
      ghost var before, body, rest := lines[..start + 1], lines[start + 1..end], lines[end..];
      end := SetTomlStringField(start, end, IDENTITY, identity);
      Parts(before, SetField(body, IDENTITY, identity), rest);
      end := SetTomlStringField(start, end, MODE, IDENTITY);
      var text := JoinLines(lines);
      var parsed := parse(text);
      if parsed.None? {
        return Unparsable;
      }
      if parsed.value.NoKeeper? {
        return KeeperLost;
      }
      if parsed.value.identity != Some(identity) {
        return IdentityLost;
      }
      if parsed.value.mode != Some(IDENTITY) {
        return ModeLost;
      }
      return Saved(text);
    }
  }

  lemma Parts(a: seq<string>, b: seq<string>, c: seq<string>)
    ensures (a + b + c)[..|a|] == a && (a + b + c)[|a|..|a| + |b|] == b && (a + b + c)[|a| + |b|..] == c
  {
  }

  lemma Splice(s: seq<string>, a: nat, b: nat, i: nat, x: string)
    requires a <= i < b <= |s|
    ensures s[i := x] == s[..a] + s[a..b][i - a := x] + s[b..]
  {
  }

  lemma Join(s: seq<string>, a: nat, b: nat, x: string)
    requires a <= b <= |s|
    ensures s[..b] + [x] + s[b..] == s[..a] + (s[a..b] + [x]) + s[b..]
  {
  }

  // ---- what an edit keeps and establishes ----

  lemma KeysAreBare()
    ensures BareKey(IDENTITY) && BareKey(MODE) && Plain(IDENTITY)
    ensures !(IDENTITY <= MODE) && !(MODE <= IDENTITY)
  {
    assert IDENTITY[3] == 'h' && MODE[3] == '_';
  }

  // After setting a key its first assignment is in the same place, has the value, and is a fixed point.
  lemma SetFieldEstablishes(body: seq<string>, key: string, value: string)
    requires BareKey(key) && Plain(value)
    ensures Assigning(SetField(body, key, value), key) == Assigning(body, key)
    ensures FieldValue(SetField(body, key, value), key) == Some(value)
    ensures SetField(SetField(body, key, value), key, value) == SetField(body, key, value)
  {
    hide Assignment, Rewritten, NewLine, BareKey, Plain;
    var i := Assigning(body, key);
    if i < |body| {
      RewrittenIsFixed(key, body[i], value);
    } else {
      NewLineIsFixed(key, value);
    }
    FirstIndexAt(SetField(body, key, value), Assigns(key), 0, i);
  }

  // Setting one key touches one line, which assigned that key or is new; every other line stays in place.
  lemma SetFieldTouchesOne(body: seq<string>, key: string, value: string)
    requires BareKey(key) && Plain(value)
    ensures var i, r := Assigning(body, key), SetField(body, key, value);
            && |body| <= |r| && i < |r| && |r| == (if i < |body| then |body| else |body| + 1)
            && (forall j :: 0 <= j < |body| && j != i ==> r[j] == body[j])
            && Assignment(key, r[i]).Some? && (i < |body| ==> Assignment(key, body[i]).Some?)
            && (i < |body| ==> EndsWithNewline(r[i]) == EndsWithNewline(body[i]))
            && (i == |body| ==> EndsWithNewline(r[i]))
  {
    hide Assignment, Rewritten, BareKey, Plain;
    var i := Assigning(body, key);
    if i < |body| {
      RewrittenIsFixed(key, body[i], value);
    } else {
      NewLineIsFixed(key, value);
      assert EndsWithNewline(NewLine(key, value));
    }
  }

  // Setting one key leaves the other's first assignment where and what it was.
  lemma SetFieldKeepsOther(body: seq<string>, key: string, value: string, other: string)
    requires BareKey(key) && Plain(value) && !(key <= other) && !(other <= key)
    ensures var r := SetField(body, key, value);
            var k := Assigning(body, other);
            && (k < |body| ==> Assigning(r, other) == k && r[k] == body[k])
            && (k == |body| ==> Assigning(r, other) == |r|)
  {
    SetFieldTouchesOne(body, key, value);
    hide Assignment, Rewritten, BareKey, Plain, SetField;
    var i, r, k := Assigning(body, key), SetField(body, key, value), Assigning(body, other);
    AssignsOneKey(key, other, r[i]);
    if i < |body| {
      AssignsOneKey(key, other, body[i]);
    }
    FirstIndexAt(r, Assigns(other), 0, if k < |body| then k else |r|);
  }

  // After the update both keys hold the requested values, and updating again changes nothing.
  lemma EditedEstablishes(body: seq<string>, identity: string)
    requires Plain(identity)
    ensures FieldValue(Edited(body, identity), IDENTITY) == Some(identity)
    ensures FieldValue(Edited(body, identity), MODE) == Some(IDENTITY)
    ensures Edited(Edited(body, identity), identity) == Edited(body, identity)
  {
    KeysAreBare();
    hide Assignment, Rewritten, BareKey, Plain, NewLine, IDENTITY, MODE;
    var once := SetField(body, IDENTITY, identity);
    SetFieldEstablishes(body, IDENTITY, identity);
    SetFieldTouchesOne(body, IDENTITY, identity);
    SetFieldEstablishes(once, MODE, IDENTITY);
    SetFieldKeepsOther(once, MODE, IDENTITY, IDENTITY);
    var twice, i := SetField(once, MODE, IDENTITY), Assigning(body, IDENTITY);
    assert Assigning(twice, IDENTITY) == i && twice[i] == once[i];
    assert once[i] == once[i := Rewritten(Assignment(IDENTITY, once[i]).value, identity, once[i])][i];
    assert SetField(twice, IDENTITY, identity) == twice;
  }

  // ---- the whole file ----

  // A line that assigns neither key.
  function Unrelated(): string -> bool {
    (line: string) => Assignment(IDENTITY, line).None? && Assignment(MODE, line).None?
  }

  lemma {:induction false} FilterOneChange(s: seq<string>, i: nat, x: string, f: string -> bool)
    requires i < |s| && !f(s[i]) && !f(x)
    ensures Filter(s[i := x], f) == Filter(s, f)
  {
    var t, u := s[..|s| - 1], s[i := x];
    if i < |s| - 1 {
      FilterOneChange(t, i, x, f);
      assert u[..|u| - 1] == t[i := x];
    } else {
      assert u[..|u| - 1] == t;
    }
  }

  lemma SetFieldKeepsUnrelated(body: seq<string>, key: string, value: string)
    requires (key == IDENTITY || key == MODE) && Plain(value)
    ensures Filter(SetField(body, key, value), Unrelated()) == Filter(body, Unrelated())
  {
    KeysAreBare();
    SetFieldTouchesOne(body, key, value);
    hide Assignment, Rewritten, BareKey, Plain, NewLine;
    var i, r := Assigning(body, key), SetField(body, key, value);
    assert !Unrelated()(r[i]);
    if i < |body| {
      assert !Unrelated()(body[i]);
      FilterOneChange(body, i, r[i], Unrelated());
    } else {
      assert r[..|r| - 1] == body;
    }
  }

  // The lines of the section that assign neither key survive the update, all of them, in order.
  lemma EditedKeepsUnrelated(body: seq<string>, identity: string)
    requires Plain(identity)
    ensures Filter(Edited(body, identity), Unrelated()) == Filter(body, Unrelated())
  {
    KeysAreBare();
    SetFieldKeepsUnrelated(body, IDENTITY, identity);
    SetFieldKeepsUnrelated(SetField(body, IDENTITY, identity), MODE, IDENTITY);
  }

  ghost predicate NoHeaders(body: seq<string>) {
    forall i :: 0 <= i < |body| ==> !IsSectionHeader(body[i])
  }

  lemma SetFieldAddsNoHeader(body: seq<string>, key: string, value: string)
    requires BareKey(key) && Plain(value) && NoHeaders(body)
    ensures NoHeaders(SetField(body, key, value))
  {
    SetFieldTouchesOne(body, key, value);
    hide Assignment, Rewritten, BareKey, Plain, NewLine, IsSectionHeader, SetField;
    AssignmentIsNoHeader(key, SetField(body, key, value)[Assigning(body, key)]);
  }

  lemma EditedAddsNoHeader(body: seq<string>, identity: string)
    requires Plain(identity) && NoHeaders(body)
    ensures NoHeaders(Edited(body, identity))
  {
    KeysAreBare();
    SetFieldAddsNoHeader(body, IDENTITY, identity);
    SetFieldAddsNoHeader(SetField(body, IDENTITY, identity), MODE, IDENTITY);
  }

  // Replacing the section's body by one without headers leaves the section where it was, ending with it.
  lemma BoundsFollowBody(lines: seq<string>, start: nat, end: nat, body: seq<string>)
    requires Bounds(lines) == Some((start, end)) && NoHeaders(body)
    ensures Bounds(lines[..start + 1] + body + lines[end..]) == Some((start, start + 1 + |body|))
  {
    hide IsSectionHeader, IsKeeperHeader;
    var r := lines[..start + 1] + body + lines[end..];
    assert forall j :: 0 <= j <= start ==> r[j] == lines[j];
    FirstIndexAt(r, Opens(), 0, start);
    var e := start + 1 + |body|;
    assert forall j :: start + 1 <= j < e ==> r[j] == body[j - start - 1];
    assert end < |lines| ==> e < |r| && r[e] == lines[end];
    assert end == |lines| ==> e == |r|;
    FirstIndexAt(r, Closes(), start + 1, e);
  }

  lemma BodyHasNoHeaders(lines: seq<string>, start: nat, end: nat)
    requires Bounds(lines) == Some((start, end))
    ensures start < end <= |lines| && NoHeaders(lines[start + 1..end])
  {
    hide IsSectionHeader, IsKeeperHeader;
    assert forall j :: start + 1 <= j < end ==> !Closes()(lines[j]);
  }

  // The section of a file, between its header and the next one.
  function Section(lines: seq<string>): seq<string>
    requires Bounds(lines).Some?
  {
    var (start, end) := Bounds(lines).value;
    lines[start + 1..end]
  }

  /** Updating a file: it stays the same outside the section, the section is found again in the same
      place and holds the requested values, its unrelated lines survive, and a second update is idle. */
  lemma UpdateIsSound(lines: seq<string>, identity: string)
    requires Bounds(lines).Some? && Plain(identity)
    ensures var (start, end) := Bounds(lines).value;
            var r := Updated(lines, identity).value;
            && Bounds(r).Some? && Bounds(r).value.0 == start
            && r[..start + 1] == lines[..start + 1]
            && r[Bounds(r).value.1..] == lines[end..]
            && FieldValue(Section(r), IDENTITY) == Some(identity)
            && FieldValue(Section(r), MODE) == Some(IDENTITY)
            && Filter(Section(r), Unrelated()) == Filter(Section(lines), Unrelated())
            && Updated(r, identity) == Some(r)
  {
    hide FirstIndex, Opens, Closes, Edited, Filter, FieldValue, NoHeaders, Unrelated, Plain;
    var (start, end) := Bounds(lines).value;
    var body := lines[start + 1..end];
    var edited := Edited(body, identity);
    var r := Updated(lines, identity).value;
    BodyHasNoHeaders(lines, start, end);
    EditedAddsNoHeader(body, identity);
    BoundsFollowBody(lines, start, end, edited);
    EditedEstablishes(body, identity);
    EditedKeepsUnrelated(body, identity);
    hide Bounds;
    assert r == lines[..start + 1] + edited + lines[end..];
    assert Section(r) == edited;
    assert r[start + 1 + |edited|..] == lines[end..];
  }

  // ---- text and lines ----

  // str.splitlines(keepends=True), for text whose only line breaks are newlines.
  function SplitLines(text: string): (ls: seq<string>)
  {
    if text == [] then []
    else
      var rest := SplitLines(text[1..]);
      if text[0] == '\n' || rest == [] then [text[..1]] + rest
      else [[text[0]] + rest[0]] + rest[1..]
  }

  function JoinLines(ls: seq<string>): string {
    if ls == [] then [] else ls[0] + JoinLines(ls[1..])
  }

  // Not empty, and no newline but possibly at the end.
  predicate IsLine(l: string) {
    l != [] && forall j :: 0 <= j < |l| - 1 ==> l[j] != '\n'
  }

  // Lines as splitting yields them: only the last may lack its newline.
  predicate WellSplit(ls: seq<string>) {
    && (forall i :: 0 <= i < |ls| ==> IsLine(ls[i]))
    && (forall i :: 0 <= i < |ls| - 1 ==> EndsWithNewline(ls[i]))
  }

  lemma {:induction false} SplitIsWellSplit(text: string)
    ensures WellSplit(SplitLines(text))
  {
    if text != [] {
      SplitIsWellSplit(text[1..]);
      var rest := SplitLines(text[1..]);
      if text[0] != '\n' && rest != [] {
        ConsLine(text[0], rest[0]);
      }
    }
  }

  lemma ConsLine(c: char, l: string)
    requires IsLine(l) && c != '\n'
    ensures IsLine([c] + l) && EndsWithNewline([c] + l) == EndsWithNewline(l)
  {
  }

  lemma {:induction false} SplitJoins(text: string)
    ensures JoinLines(SplitLines(text)) == text
  {
    if text != [] {
      SplitJoins(text[1..]);
      var rest := SplitLines(text[1..]);
      assert text == [text[0]] + text[1..];
      if text[0] == '\n' || rest == [] {
        assert SplitLines(text)[1..] == rest;
      } else {
        assert SplitLines(text)[1..] == rest[1..];
        assert [text[0]] + (rest[0] + JoinLines(rest[1..])) == ([text[0]] + rest[0]) + JoinLines(rest[1..]);
      }
    }
  }

  lemma {:induction false} JoinedSplits(ls: seq<string>)
    requires WellSplit(ls)
    ensures SplitLines(JoinLines(ls)) == ls
    decreases |JoinLines(ls)|
  {
    if ls != [] {
      var l, t := ls[0], JoinLines(ls);
      assert IsLine(l);
      assert WellSplit(ls[1..]);
      if |l| == 1 {
        assert t[1..] == JoinLines(ls[1..]);
        JoinedSplits(ls[1..]);
        assert t[..1] == l;
      } else {
        var shorter := [l[1..]] + ls[1..];
        assert shorter[1..] == ls[1..];
        assert t[1..] == JoinLines(shorter);
        JoinedSplits(shorter);
        assert [t[0]] + l[1..] == l;
      }
    }
  }

  // A text splits into well-split lines that join to it again, and lines are read back from the text they
  // join to exactly when they are well split.
  lemma RereadExactly(text: string, ls: seq<string>)
    ensures WellSplit(SplitLines(text)) && JoinLines(SplitLines(text)) == text
    ensures SplitLines(JoinLines(ls)) == ls <==> WellSplit(ls)
  {
    SplitIsWellSplit(text);
    SplitJoins(text);
    SplitIsWellSplit(JoinLines(ls));
    if WellSplit(ls) {
      JoinedSplits(ls);
    }
  }

  lemma AssignmentInLine(key: string, line: string)
    requires IsLine(line) && Assignment(key, line).Some?
    ensures var f := Assignment(key, line).value; NoNewline(f.before) && NoNewline(f.after)
  {
    hide Opening, Closing;
    StrippedLine(line);
    PartsOfText(key, StripNewlines(line));
  }

  lemma StrippedLine(line: string)
    requires IsLine(line)
    ensures NoNewline(StripNewlines(line))
  {
    hide StripNewlines;
    var text := StripNewlines(line);
    StripNewlinesPrefix(line);
    assert forall j :: 0 <= j < |text| ==> text[j] == line[j];
    assert |text| == |line| ==> text == line;
  }

  lemma PartsOfText(key: string, text: string)
    requires NoNewline(text) && AssignmentIn(key, text).Some?
    ensures var f := AssignmentIn(key, text).value; NoNewline(f.before) && NoNewline(f.after)
  {
    hide Opening, Closing;
  }

  predicate NoNewline(s: string) {
    forall j :: 0 <= j < |s| ==> s[j] != '\n'
  }

  lemma RewrittenIsLine(key: string, line: string, value: string)
    requires IsLine(line) && Assignment(key, line).Some? && Plain(value)
    ensures IsLine(Rewritten(Assignment(key, line).value, value, line))
  {
    hide Assignment, EndsWithNewline, NoNewline;
    AssignmentInLine(key, line);
    var f := Assignment(key, line).value;
    WrittenOnOneLine(f.before, value, f.after);
    Terminated(Written(f.before, value, f.after));
    assert Written(f.before, value, f.after) + "" == Written(f.before, value, f.after);
  }

  lemma WrittenOnOneLine(before: string, value: string, after: string)
    requires NoNewline(before) && NoNewline(after) && Plain(value)
    ensures NoNewline(Written(before, value, after)) && Written(before, value, after) != []
  {
    assert NoNewline(before + "\"");
    assert NoNewline(value);
    assert NoNewline(before + "\"" + value);
    assert NoNewline(before + "\"" + value + "\"");
  }

  lemma Terminated(text: string)
    requires NoNewline(text) && text != []
    ensures IsLine(text) && IsLine(text + "\n")
  {
  }

  lemma NewLineIsLine(key: string, value: string)
    requires BareKey(key) && Plain(value)
    ensures IsLine(NewLine(key, value)) && EndsWithNewline(NewLine(key, value))
  {
    assert forall j :: 0 <= j < |key| ==> key[j] != '\n';
  }

  lemma ReplaceWellSplit(ls: seq<string>, p: nat, x: string)
    requires WellSplit(ls) && p < |ls| && IsLine(x) && EndsWithNewline(x) == EndsWithNewline(ls[p])
    ensures WellSplit(ls[p := x])
  {
    hide IsLine, EndsWithNewline;
  }

  lemma InsertWellSplit(ls: seq<string>, p: nat, x: string)
    requires WellSplit(ls) && 0 < p <= |ls| && IsLine(x) && EndsWithNewline(x)
    ensures WellSplit(ls[..p] + [x] + ls[p..]) <==> p < |ls| || EndsWithNewline(ls[p - 1])
  {
    hide IsLine, EndsWithNewline;
    var r := ls[..p] + [x] + ls[p..];
    assert forall j :: 0 <= j < p ==> r[j] == ls[j];
    assert r[p] == x;
    assert forall j :: p < j < |r| ==> r[j] == ls[j - 1];
    assert r[p - 1] == ls[p - 1];
  }

  // What setting a field does to the whole list of lines.
  lemma SetFieldInFile(before: seq<string>, body: seq<string>, after: seq<string>, key: string, value: string)
    ensures var i, ls, r := Assigning(body, key), before + body + after, before + SetField(body, key, value) + after;
            && i <= |body| && (i < |body| ==> Assignment(key, body[i]).Some?)
            && r == if i < |body| then ls[|before| + i := Rewritten(Assignment(key, body[i]).value, value, body[i])]
                    else ls[..|before| + |body|] + [NewLine(key, value)] + ls[|before| + |body|..]
  {
    hide Assignment, Rewritten, NewLine;
    var i, ls := Assigning(body, key), before + body + after;
    assert ls[..|before| + |body|] == before + body && ls[|before| + |body|..] == after;
    if i < |body| {
      var x := Rewritten(Assignment(key, body[i]).value, value, body[i]);
      assert before + body[i := x] + after == ls[|before| + i := x];
    } else {
      assert before + (body + [NewLine(key, value)]) + after == (before + body) + [NewLine(key, value)] + after;
    }
  }

  // One field set inside a file: still well split unless a line was inserted behind an unfinished last line.
  lemma SetFieldWellSplit(before: seq<string>, body: seq<string>, after: seq<string>, key: string, value: string)
    requires before != [] && WellSplit(before + body + after) && BareKey(key) && Plain(value)
    ensures WellSplit(before + SetField(body, key, value) + after) <==>
            Assigning(body, key) < |body| || after != [] || EndsWithNewline((before + body)[|before + body| - 1])
  {
    var i, ls := Assigning(body, key), before + body + after;
    SetFieldInFile(before, body, after, key, value);
    hide Assignment, Rewritten, NewLine, BareKey, Plain, SetField, IsLine, Assigning, EndsWithNewline;
    if i < |body| {
      assert ls[|before| + i] == body[i];
      assert IsLine(body[i]);
      RewrittenIsLine(key, body[i], value);
      RewrittenIsFixed(key, body[i], value);
      ReplaceWellSplit(ls, |before| + i, Rewritten(Assignment(key, body[i]).value, value, body[i]));
    } else {
      NewLineIsLine(key, value);
      InsertWellSplit(ls, |before| + |body|, NewLine(key, value));
      assert ls[|before| + |body| - 1] == (before + body)[|before + body| - 1];
    }
  }

  // The line at position j of the file after setting a field ends as it did before, or is new.
  lemma SetFieldLineEnds(before: seq<string>, body: seq<string>, key: string, value: string, j: nat)
    requires BareKey(key) && Plain(value) && j < |before + body|
    ensures var r := before + SetField(body, key, value) + [];
            && |r| == |before + body| + (if Assigning(body, key) < |body| then 0 else 1)
            && EndsWithNewline(r[j]) == EndsWithNewline((before + body)[j])
            && (Assigning(body, key) == |body| ==> EndsWithNewline(r[|r| - 1]))
  {
    hide Assignment, Rewritten, NewLine, BareKey, Plain, SetField, IsLine, FirstIndex, EndsWithNewline;
    SetFieldInFile(before, body, [], key, value);
    var i, ls := Assigning(body, key), before + body + [];
    assert ls == before + body;
    if i < |body| {
      RewrittenIsFixed(key, body[i], value);
      assert ls[|before| + i] == body[i];
    } else {
      NewLineIsLine(key, value);
    }
  }

  lemma SetFieldLastLine(before: seq<string>, body: seq<string>, key: string, value: string)
    requires before != [] && BareKey(key) && Plain(value)
    ensures var was := before + body;
            var now := before + SetField(body, key, value);
            EndsWithNewline(now[|now| - 1]) ==
            (if Assigning(body, key) < |body| then EndsWithNewline(was[|was| - 1]) else true)
  {
    hide Assignment, Rewritten, NewLine, BareKey, Plain, SetField, Assigning, EndsWithNewline;
    SetFieldLineEnds(before, body, key, value, |before + body| - 1);
    assert before + SetField(body, key, value) + [] == before + SetField(body, key, value);
    AssigningInside(body, key);
  }

  lemma AssigningInside(body: seq<string>, key: string)
    ensures Assigning(body, key) <= |body|
  {
  }

  // An unfinished line that is not the last stays one.
  lemma UnfinishedStays(before: seq<string>, body: seq<string>, key: string, value: string, j: nat)
    requires BareKey(key) && Plain(value)
    requires j < |before + body| - 1 && !EndsWithNewline((before + body)[j])
    ensures !WellSplit(before + SetField(body, key, value) + [])
  {
    hide Assignment, Rewritten, NewLine, BareKey, Plain, SetField, IsLine, Assigning, EndsWithNewline;
    SetFieldLineEnds(before, body, key, value, j);
  }

  // Two fields set at the end of a file.
  lemma TwoFieldsWellSplit(before: seq<string>, body: seq<string>, identity: string)
    requires before != [] && WellSplit(before + body + []) && Plain(identity)
    ensures WellSplit(before + Edited(body, identity) + []) <==>
            || EndsWithNewline((before + body)[|before + body| - 1])
            || (Assigning(body, IDENTITY) < |body| && Assigning(body, MODE) < |body|)
  {
    KeysAreBare();
    hide Assignment, Rewritten, NewLine, BareKey, Plain, SetField, IsLine, Assigning, EndsWithNewline, IDENTITY, MODE,
         WellSplit;
    var once := SetField(body, IDENTITY, identity);
    SetFieldWellSplit(before, body, [], IDENTITY, identity);
    SetFieldLastLine(before, body, IDENTITY, identity);
    SetFieldKeepsOther(body, IDENTITY, identity, MODE);
    SetFieldGrows(body, IDENTITY, identity);
    AssigningInside(body, MODE);
    if WellSplit(before + once + []) {
      SetFieldWellSplit(before, once, [], MODE, IDENTITY);
    } else {
      UnfinishedTwice(before, body, identity);
    }
  }

  lemma SetFieldGrows(body: seq<string>, key: string, value: string)
    requires BareKey(key) && Plain(value)
    ensures var i, r := Assigning(body, key), SetField(body, key, value);
            |r| == if i < |body| then |body| else |body| + 1
  {
    hide Assignment, Rewritten, NewLine, BareKey, Plain, SetField, Assigning, EndsWithNewline;
    SetFieldTouchesOne(body, key, value);
  }

  // A line inserted behind an unfinished one leaves it unfinished, and so does the second field.
  lemma UnfinishedTwice(before: seq<string>, body: seq<string>, identity: string)
    requires before != [] && WellSplit(before + body + []) && Plain(identity)
    requires !WellSplit(before + SetField(body, IDENTITY, identity) + [])
    ensures !WellSplit(before + Edited(body, identity) + [])
  {
    KeysAreBare();
    hide Assignment, Rewritten, NewLine, BareKey, Plain, SetField, IsLine, Assigning, EndsWithNewline, IDENTITY, MODE,
         WellSplit;
    var once := SetField(body, IDENTITY, identity);
    SetFieldWellSplit(before, body, [], IDENTITY, identity);
    AssigningInside(body, IDENTITY);
    SetFieldTouchesOne(body, IDENTITY, identity);
    assert once[..|body|] == body;
    assert (before + once)[|before + body| - 1] == (before + body)[|before + body| - 1];
    UnfinishedStays(before, once, MODE, IDENTITY, |before + body| - 1);
  }

  /** The updated lines are what splitting the joined text gives exactly when no line had to be inserted behind a
      last line without a newline. */
  lemma UpdateIsReread(lines: seq<string>, identity: string)
    requires Bounds(lines).Some? && WellSplit(lines) && Plain(identity)
    ensures var r := Updated(lines, identity).value;
            SplitLines(JoinLines(r)) == r <==>
            || Bounds(lines).value.1 < |lines|
            || EndsWithNewline(lines[|lines| - 1])
            || (FieldValue(Section(lines), IDENTITY).Some? && FieldValue(Section(lines), MODE).Some?)
  {
    KeysAreBare();
    hide FirstIndex, Assignment, Rewritten, NewLine, BareKey, Plain, IDENTITY, MODE, WellSplit, EndsWithNewline,
         SetField, Assigning, FieldValue;
    var (start, end) := Bounds(lines).value;
    SectionInside(lines);
    var before, body, after := lines[..start + 1], lines[start + 1..end], lines[end..];
    assert before + body + after == lines;
    RereadExactly([], Updated(lines, identity).value);
    FieldValueSome(body, IDENTITY);
    FieldValueSome(body, MODE);
    assert (before + body == lines) == (after == []);
    EditedWellSplit(before, body, after, identity);
  }

  lemma EditedWellSplit(before: seq<string>, body: seq<string>, after: seq<string>, identity: string)
    requires before != [] && WellSplit(before + body + after) && Plain(identity)
    ensures WellSplit(before + Edited(body, identity) + after) <==>
            || after != []
            || EndsWithNewline((before + body)[|before + body| - 1])
            || (Assigning(body, IDENTITY) < |body| && Assigning(body, MODE) < |body|)
  {
    KeysAreBare();
    hide Assignment, Rewritten, NewLine, BareKey, Plain, IDENTITY, MODE, WellSplit, EndsWithNewline, SetField,
         Assigning;
    if after == [] {
      TwoFieldsWellSplit(before, body, identity);
    } else {
      SetFieldWellSplit(before, body, after, IDENTITY, identity);
      SetFieldWellSplit(before, SetField(body, IDENTITY, identity), after, MODE, IDENTITY);
    }
  }

  lemma SectionInside(lines: seq<string>)
    requires Bounds(lines).Some?
    ensures Bounds(lines).value.0 < Bounds(lines).value.1 <= |lines|
    ensures Section(lines) == lines[Bounds(lines).value.0 + 1..Bounds(lines).value.1]
  {
  }

  lemma FieldValueSome(body: seq<string>, key: string)
    ensures FieldValue(body, key).Some? <==> Assigning(body, key) < |body|
  {
  }
}
