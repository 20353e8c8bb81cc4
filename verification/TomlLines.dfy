/** Recognising and rewriting single lines of a keeper TOML file, character by character. */
module TomlLines {
  import opened Lists
  import opened Text

  function Before(s: string, c: char): string {
    if s == [] || s[0] == c then [] else [s[0]] + Before(s[1..], c)
  }

  function StripNewlines(s: string): string {
    if s == [] || s[|s| - 1] != '\n' then s else StripNewlines(s[..|s| - 1])
  }

  predicate EndsWithNewline(s: string) {
    s != [] && s[|s| - 1] == '\n'
  }

  // The line that opens the keeper section.
  predicate IsKeeperHeader(line: string) {
    Strip(Before(Strip(line), '#')) == "[keeper]"
  }

  // Optional whitespace, then nothing or a comment that runs to the end of the line.
  predicate IsTail(t: string) {
    var n := Lead(t);
    n == |t| || (t[n] == '#' && forall i :: n <= i < |t| - 1 ==> t[i] != '\n')
  }

  // Any section header: a bracketed, non-empty name and a tail.
  predicate IsSectionHeader(line: string) {
    var n := Lead(line);
    && n < |line| && line[n] == '['
    && exists j :: n + 2 <= j < |line| && line[j] == ']' && (forall i :: n < i < j ==> line[i] != ']') &&
         IsTail(line[j + 1..])
  }

  // The position of c, when only whitespace stands between position i and it.
  function After(text: string, i: nat, c: char): (p: Option<nat>)
    requires i <= |text|
    ensures p.Some? ==> i <= p.value < |text| && text[p.value] == c
  {
    var n := i + Lead(text[i..]);
    if n < |text| && text[n] == c then Some(n) else None
  }

  // The position after the key, when the text begins with it, indented or not.
  function PastKey(key: string, text: string): (p: Option<nat>)
    ensures p.Some? ==> p.value <= |text|
  {
    var n := Lead(text);
    if key <= text[n..] then Some(n + |key|) else None
  }

  // Where the opening quote of `key = "` stands, when the text begins that way.
  function Opening(key: string, text: string): (q: Option<nat>)
    ensures q.Some? ==> q.value < |text| && text[q.value] == '"'
  {
    match PastKey(key, text)
    case None => None
    case Some(a) =>
      match After(text, a, '=')
      case None => None
      case Some(b) => After(text, b + 1, '"')
  }

  // The first quote from position j on that only a tail follows.
  function Closing(text: string, j: nat): (c: Option<nat>)
    requires j <= |text|
    ensures c.Some? ==> j <= c.value < |text| && text[c.value] == '"' && IsTail(text[c.value + 1..])
    decreases |text| - j
  {
    if j == |text| then None
    else if text[j] == '"' && IsTail(text[j + 1..]) then Some(j)
    else Closing(text, j + 1)
  }

  // The three parts of a string assignment: up to the quote, the value, what follows the value.
  datatype Field = Field(before: string, value: string, after: string)

  function Assignment(key: string, line: string): Option<Field> {
    AssignmentIn(key, StripNewlines(line))
  }

  function AssignmentIn(key: string, text: string): Option<Field> {
    match Opening(key, text)
    case None => None
    case Some(q) =>
      match Closing(text, q + 1)
      case None => None
      case Some(c) => Some(Field(text[..q], text[q + 1..c], text[c + 1..]))
  }

  function Written(before: string, value: string, after: string): string {
    before + "\"" + value + "\"" + after
  }

  // The line with its value replaced; the line ending stays.
  function Rewritten(f: Field, value: string, line: string): string {
    Written(f.before, value, f.after) + if EndsWithNewline(line) then "\n" else ""
  }

  function NewLine(key: string, value: string): string {
    key + " = \"" + value + "\"\n"
  }

  // A value that cannot end the string or the line early.
  predicate Plain(value: string) {
    forall i :: 0 <= i < |value| ==> value[i] != '"' && value[i] != '\n'
  }

  // A key as the editor uses them: not empty, with no whitespace, quote, equals sign or bracket in it.
  predicate BareKey(key: string) {
    key != [] && forall i :: 0 <= i < |key| ==> !IsSpace(key[i]) && key[i] !in {'"', '=', '[', '#'}
  }

  // ---- what rewriting keeps ----

  // s and t agree up to and including position n.
  predicate Agree(s: string, t: string, n: nat) {
    n < |s| && n < |t| && forall i :: 0 <= i <= n ==> s[i] == t[i]
  }

  lemma LeadStable(s: string, t: string)
    requires Lead(s) < |s| && Agree(s, t, Lead(s))
    ensures Lead(t) == Lead(s)
  {
    var n, m := Lead(s), Lead(t);
    assert s[n] == t[n];
    assert m <= n;
    assert s[m] == t[m];
  }

  lemma AfterStable(s: string, t: string, i: nat, c: char, p: nat)
    requires i <= |s| && After(s, i, c) == Some(p) && Agree(s, t, p)
    ensures i <= |t| && After(t, i, c) == Some(p)
  {
    assert Agree(s[i..], t[i..], p - i);
    LeadStable(s[i..], t[i..]);
  }

  lemma PastKeyStable(key: string, s: string, t: string, a: nat)
    requires BareKey(key) && PastKey(key, s) == Some(a) && a < |s| && Agree(s, t, a)
    ensures PastKey(key, t) == Some(a)
  {
    LeadStable(s, t);
    var n := Lead(s);
    assert s[n..][..|key|] == key;
    assert t[n..][..|key|] == s[n..][..|key|];
  }

  // The opening of an assignment depends on nothing after its quote.
  lemma OpeningStable(key: string, s: string, t: string, q: nat)
    requires Opening(key, s) == Some(q) && BareKey(key) && Agree(s, t, q)
    ensures Opening(key, t) == Some(q)
  {
    hide After, PastKey, BareKey;
    var a := PastKey(key, s).value;
    var b := After(s, a, '=').value;
    PastKeyStable(key, s, t, a);
    AfterStable(s, t, a, '=', b);
    AfterStable(s, t, b + 1, '"', q);
  }

  lemma {:induction false} ClosingSkips(text: string, j: nat, c: nat)
    requires j <= c < |text| && text[c] == '"' && IsTail(text[c + 1..])
    requires forall i :: j <= i < c ==> text[i] != '"'
    ensures Closing(text, j) == Some(c)
    decreases c - j
  {
    if j < c {
      ClosingSkips(text, j + 1, c);
    }
  }

  lemma StripNewlinesKeeps(s: string)
    requires !EndsWithNewline(s)
    ensures StripNewlines(s) == s && StripNewlines(s + "\n") == s
  {
    assert (s + "\n")[..|s|] == s;
  }

  // A value written into the parts of an assignment is read back, with the same parts around it.
  lemma WrittenIsRead(key: string, s: string, q: nat, after: string, value: string)
    requires BareKey(key) && Plain(value) && Opening(key, s) == Some(q) && IsTail(after) && !EndsWithNewline(after)
    ensures var text := Written(s[..q], value, after);
            && Assignment(key, text) == Some(Field(s[..q], value, after))
            && Assignment(key, text + "\n") == Some(Field(s[..q], value, after))
  {
    var text := Written(s[..q], value, after);
    WrittenParses(key, s, q, after, value);
    StripNewlinesKeeps(text);
    hide Opening, Closing, IsTail, BareKey, StripNewlines, Written, Plain, AssignmentIn;
  }

  lemma WrittenParses(key: string, s: string, q: nat, after: string, value: string)
    requires BareKey(key) && Plain(value) && Opening(key, s) == Some(q) && IsTail(after) && !EndsWithNewline(after)
    ensures var text := Written(s[..q], value, after);
            AssignmentIn(key, text) == Some(Field(s[..q], value, after)) && !EndsWithNewline(text)
  {
    hide Opening, Closing, IsTail, BareKey, Plain, Written, Agree, EndsWithNewline;
    var text := Written(s[..q], value, after);
    WrittenParts(s, q, after, value);
    OpeningStable(key, s, text, q);
  }

  lemma WrittenParts(s: string, q: nat, after: string, value: string)
    requires q < |s| && s[q] == '"' && Plain(value) && IsTail(after) && !EndsWithNewline(after)
    ensures var text := Written(s[..q], value, after);
            var c := q + 1 + |value|;
            && Agree(s, text, q) && !EndsWithNewline(text)
            && c < |text| && Closing(text, q + 1) == Some(c)
            && text[..q] == s[..q] && text[q + 1..c] == value && text[c + 1..] == after
  {
    hide IsTail;
    var text := Written(s[..q], value, after);
    var c := q + 1 + |value|;
    assert text[q + 1..c] == value;
    assert forall i :: 0 <= i < |value| ==> text[q + 1 + i] == value[i];
    assert text[c] == '"' && text[c + 1..] == after;
    ClosingSkips(text, q + 1, c);
  }

  // ---- single lines as the editor sees them ----

  lemma {:induction false} StripNewlinesPrefix(line: string)
    ensures StripNewlines(line) <= line && !EndsWithNewline(StripNewlines(line))
  {
    if EndsWithNewline(line) {
      StripNewlinesPrefix(line[..|line| - 1]);
    }
  }

  lemma AssignmentParts(key: string, line: string)
    requires Assignment(key, line).Some?
    ensures var text, f := StripNewlines(line), Assignment(key, line).value;
            && Opening(key, text) == Some(|f.before|) && f.before == text[..|f.before|]
            && IsTail(f.after) && !EndsWithNewline(f.after)
  {
    StripNewlinesPrefix(line);
  }

  // Rewriting a matching line gives a matching line with the new value, and doing it again changes nothing.
  lemma RewrittenIsFixed(key: string, line: string, value: string)
    requires BareKey(key) && Plain(value) && Assignment(key, line).Some?
    ensures var f := Assignment(key, line).value;
            var r := Rewritten(f, value, line);
            && Assignment(key, r) == Some(f.(value := value))
            && Rewritten(f.(value := value), value, r) == r
            && EndsWithNewline(r) == EndsWithNewline(line)
  {
    hide Assignment, Opening, IsTail, StripNewlines, BareKey, Plain, Written;
    var text, f := StripNewlines(line), Assignment(key, line).value;
    AssignmentParts(key, line);
    WrittenIsRead(key, text, |f.before|, f.after, value);
    WrittenEnds(f.before, value, f.after);
    assert Written(f.before, value, f.after) + "" == Written(f.before, value, f.after);
  }

  lemma WrittenEnds(before: string, value: string, after: string)
    requires !EndsWithNewline(after)
    ensures !EndsWithNewline(Written(before, value, after)) && EndsWithNewline(Written(before, value, after) + "\n")
  {
  }

  // An inserted line matches its key, has the value, and is what rewriting it would give.
  lemma NewLineIsFixed(key: string, value: string)
    requires BareKey(key) && Plain(value)
    ensures var f := Field(key + " = ", value, []);
            && Assignment(key, NewLine(key, value)) == Some(f)
            && Rewritten(f, value, NewLine(key, value)) == NewLine(key, value)
  {
    var s := key + " = \"";
    FreshOpening(key, s);
    assert s[..|key| + 3] == key + " = ";
    NewLineIsWritten(key, value);
    assert IsTail([]);
    hide Assignment, Opening, IsTail, StripNewlines, BareKey, Plain, Written, NewLine;
    WrittenIsRead(key, s, |key| + 3, [], value);
  }

  lemma NewLineIsWritten(key: string, value: string)
    ensures NewLine(key, value) == Written(key + " = ", value, []) + "\n" && EndsWithNewline(NewLine(key, value))
  {
  }

  lemma FreshOpening(key: string, s: string)
    requires BareKey(key) && s == key + " = \""
    ensures Opening(key, s) == Some(|key| + 3)
  {
    assert s[0] == key[0] && Lead(s) == 0 && s[0..] == s;
    assert s[..|key|] == key;
    var r := s[|key|..];
    assert r == " = \"";
    assert Lead(r) == 1 by { assert !IsSpace('=') && r[1..][0] == '='; }
    var t := s[|key| + 2..];
    assert t == " \"";
    assert Lead(t) == 1 by { assert !IsSpace('"') && t[1..][0] == '"'; }
  }

  lemma PrefixLead(s: string, t: string)
    requires s <= t && Lead(s) < |s|
    ensures Lead(t) == Lead(s)
  {
    LeadStable(s, t);
  }

  // A line that assigns a bare key is no section header.
  lemma AssignmentIsNoHeader(key: string, line: string)
    requires BareKey(key) && Assignment(key, line).Some?
    ensures !IsSectionHeader(line)
  {
    var text := StripNewlines(line);
    var n := Lead(text);
    StripNewlinesPrefix(line);
    assert key <= text[n..];
    assert text[n] == key[0];
    PrefixLead(text, line);
    assert line[n] == key[0];
  }

  lemma KeyBegins(key: string, line: string)
    requires Assignment(key, line).Some?
    ensures key <= StripNewlines(line)[Lead(StripNewlines(line))..]
  {
  }

  lemma PrefixesCompare(a: string, b: string, r: string)
    requires a <= r && b <= r
    ensures a <= b || b <= a
  {
    assert if |a| <= |b| then a == b[..|a|] else b == a[..|b|];
  }

  // Two keys neither of which begins with the other are never assigned by one line.
  lemma AssignsOneKey(a: string, b: string, line: string)
    requires !(a <= b) && !(b <= a) && Assignment(a, line).Some?
    ensures Assignment(b, line).None?
  {
    hide Assignment;
    if Assignment(b, line).Some? {
      KeyBegins(a, line);
      KeyBegins(b, line);
      PrefixesCompare(a, b, StripNewlines(line)[Lead(StripNewlines(line))..]);
    }
  }
}
