/** What the line recognisers accept, as the patterns they implement: a text in named parts. */
module TomlGrammar {
  import opened Lists
  import opened Text
  import opened TomlLines

  ghost predicate Blank(s: string) {
    forall c :: c in s ==> IsSpace(c)
  }

  // Nothing, or a comment with no newline but perhaps at its end.
  ghost predicate Comment(s: string) {
    s == "" || (s[0] == '#' && '\n' !in s[..|s| - 1])
  }

  ghost predicate Tail(t: string) {
    exists blank, comment :: t == blank + comment && Blank(blank) && Comment(comment)
  }

  lemma LeadIs(blank: string, rest: string)
    requires Blank(blank) && (rest == "" || !IsSpace(rest[0]))
    ensures Lead(blank + rest) == |blank|
  {
    hide IsSpace;
    var s := blank + rest;
    assert forall i :: 0 <= i < |blank| ==> s[i] == blank[i] && blank[i] in blank;
    assert rest != "" ==> s[|blank|] == rest[0];
  }

  lemma LeadIsBlank(s: string)
    ensures Blank(s[..Lead(s)])
  {
    hide IsSpace;
  }

  lemma TailIsCut(t: string)
    requires IsTail(t)
    ensures Tail(t)
  {
    hide IsSpace, Blank;
    var n := Lead(t);
    LeadIsBlank(t);
    assert t == t[..n] + t[n..];
    assert Comment(t[n..]);
  }

  lemma CutIsTail(t: string, blank: string, comment: string)
    requires t == blank + comment && Blank(blank) && Comment(comment)
    ensures IsTail(t)
  {
    hide IsSpace, Blank;
    HashIsNoSpace();
    LeadIs(blank, comment);
    var n := |blank|;
    forall i | n <= i < |t| - 1
      ensures t[i] != '\n'
    {
      assert t[i] == comment[..|comment| - 1][i - n];
    }
  }

  lemma TailMeans(t: string)
    ensures IsTail(t) <==> Tail(t)
  {
    hide IsTail, Blank, Comment;
    if IsTail(t) {
      TailIsCut(t);
    }
    if Tail(t) {
      var blank, comment :| t == blank + comment && Blank(blank) && Comment(comment);
      CutIsTail(t, blank, comment);
    }
  }

  lemma HashIsNoSpace()
    ensures !IsSpace('#') && !IsSpace('[') && !IsSpace('=') && !IsSpace('"')
  {
  }

  // A section header in its parts.
  ghost predicate Bracketed(line: string, blank: string, name: string, tail: string) {
    line == blank + "[" + name + "]" + tail && Blank(blank) && name != "" && ']' !in name && Tail(tail)
  }

  lemma Cut(line: string, n: nat, j: nat)
    requires n < j < |line|
    ensures line == line[..n] + [line[n]] + line[n + 1..j] + [line[j]] + line[j + 1..]
  {
  }

  lemma HeaderParts(line: string) returns (blank: string, name: string, tail: string)
    requires IsSectionHeader(line)
    ensures Bracketed(line, blank, name, tail)
  {
    hide IsSpace, IsTail, Tail, Blank;
    var n := Lead(line);
    var j :| n + 2 <= j < |line| && line[j] == ']' && (forall i :: n < i < j ==> line[i] != ']')
             && IsTail(line[j + 1..]);
    LeadIsBlank(line);
    TailMeans(line[j + 1..]);
    Cut(line, n, j);
    blank, name, tail := line[..n], line[n + 1..j], line[j + 1..];
  }

  /** SECTION_RE: whitespace, a bracketed name that is not empty and has no closing bracket in it, and a tail. */
  lemma HeaderIsBracketed(line: string)
    ensures IsSectionHeader(line) <==> exists blank, name, tail :: Bracketed(line, blank, name, tail)
  {
    hide IsSectionHeader, Bracketed;
    if IsSectionHeader(line) {
      var blank, name, tail := HeaderParts(line);
    }
    if blank, name, tail :| Bracketed(line, blank, name, tail) {
      BracketedIsHeader(line, blank, name, tail);
    }
  }

  lemma BracketedIsHeader(line: string, blank: string, name: string, tail: string)
    requires Bracketed(line, blank, name, tail)
    ensures IsSectionHeader(line)
  {
    hide IsSpace, IsTail, Tail;
    HashIsNoSpace();
    var rest := "[" + name + "]" + tail;
    assert line == blank + rest;
    LeadIs(blank, rest);
    var n, j := |blank|, |blank| + 1 + |name|;
    assert line[n] == '[' && line[j] == ']' && line[j + 1..] == tail;
    assert forall i :: n < i < j ==> line[i] == name[i - n - 1];
    TailMeans(tail);
  }

  // The part of an assignment before its value.
  ghost predicate Opens(before: string, key: string, a: string, b: string, c: string) {
    before == a + key + b + "=" + c && Blank(a) && Blank(b) && Blank(c)
  }

  // No earlier quote in the value is followed by a tail.
  ghost predicate Shortest(value: string, after: string) {
    forall i :: 0 <= i < |value| && value[i] == '"' ==> !Tail(value[i + 1..] + "\"" + after)
  }

  ghost predicate Assigns(key: string, text: string, f: Field) {
    && text == f.before + "\"" + f.value + "\"" + f.after
    && (exists a, b, c :: Opens(f.before, key, a, b, c))
    && Tail(f.after) && Shortest(f.value, f.after)
  }

  lemma AfterMeans(text: string, i: nat, c: char)
    requires i <= |text| && !IsSpace(c)
    ensures forall p: nat :: After(text, i, c) == Some(p) <==>
                             i <= p < |text| && text[p] == c && Blank(text[i..p])
  {
    hide IsSpace;
    var n := i + Lead(text[i..]);
    LeadIsBlank(text[i..]);
    assert text[i..][..Lead(text[i..])] == text[i..n];
    forall p: nat | i <= p < |text| && text[p] == c && Blank(text[i..p])
      ensures p == n
    {
      assert text[i..] == text[i..p] + text[p..];
      LeadIs(text[i..p], text[p..]);
    }
  }

  lemma PastKeyMeans(key: string, text: string)
    requires BareKey(key)
    ensures forall p: nat :: PastKey(key, text) == Some(p) <==>
                             |key| <= p <= |text| && text[p - |key|..p] == key && Blank(text[..p - |key|])
  {
    hide IsSpace;
    var n := Lead(text);
    LeadIsBlank(text);
    if key <= text[n..] {
      assert text[n..n + |key|] == key;
    }
    forall p: nat | |key| <= p <= |text| && text[p - |key|..p] == key && Blank(text[..p - |key|])
      ensures PastKey(key, text) == Some(p)
    {
      var m := p - |key|;
      assert text == text[..m] + text[m..];
      assert text[m..][0] == key[0];
      LeadIs(text[..m], text[m..]);
      assert key <= text[n..];
    }
  }

  lemma CutOpening(text: string, m: nat, a: nat, b: nat, q: nat)
    requires m <= a <= b < q <= |text|
    ensures text[..q] == text[..m] + text[m..a] + text[a..b] + [text[b]] + text[b + 1..q]
  {
  }

  lemma OpeningParts(key: string, text: string, q: nat) returns (a: string, b: string, c: string)
    requires BareKey(key) && Opening(key, text) == Some(q)
    ensures q < |text| && text[q] == '"' && Opens(text[..q], key, a, b, c)
  {
    hide IsSpace, BareKey, After, PastKey, Blank;
    HashIsNoSpace();
    PastKeyMeans(key, text);
    var p := PastKey(key, text).value;
    AfterMeans(text, p, '=');
    var e := After(text, p, '=').value;
    AfterMeans(text, e + 1, '"');
    CutOpening(text, p - |key|, p, e, q);
    a, b, c := text[..p - |key|], text[p..e], text[e + 1..q];
  }

  lemma OpeningMeans(key: string, text: string, q: nat)
    requires BareKey(key)
    ensures Opening(key, text) == Some(q) <==>
            q < |text| && text[q] == '"' && exists a, b, c :: Opens(text[..q], key, a, b, c)
  {
    hide BareKey, Opening, Opens;
    if Opening(key, text) == Some(q) {
      var a, b, c := OpeningParts(key, text, q);
    }
    if q < |text| && text[q] == '"' {
      if a, b, c :| Opens(text[..q], key, a, b, c) {
        OpensAt(key, text, q, a, b, c);
      }
    }
  }

  lemma PastKeyIs(key: string, text: string, a: nat, p: nat)
    requires BareKey(key) && a <= p <= |text| && text[a..p] == key && Blank(text[0..a])
    ensures PastKey(key, text) == Some(p)
  {
    PastKeyMeans(key, text);
    hide BareKey, PastKey, Blank;
    assert a == p - |key| && text[0..a] == text[..a];
  }

  lemma AfterIs(text: string, i: nat, c: char, p: nat)
    requires i <= p < |text| && text[p] == c && Blank(text[i..p]) && !IsSpace(c)
    ensures After(text, i, c) == Some(p)
  {
    AfterMeans(text, i, c);
    hide After, Blank;
  }

  lemma OpensAt(key: string, text: string, q: nat, a: string, b: string, c: string)
    requires BareKey(key) && q < |text| && text[q] == '"' && Opens(text[..q], key, a, b, c)
    ensures Opening(key, text) == Some(q)
  {
    hide IsSpace, BareKey, After, PastKey, Blank, Opens;
    HashIsNoSpace();
    var p := |a| + |key|;
    var e := p + |b|;
    Parts(text[..q], a, key, b, c);
    SliceOfPrefix(text, q, 0, |a|);
    SliceOfPrefix(text, q, |a|, p);
    SliceOfPrefix(text, q, p, e);
    SliceOfPrefix(text, q, e + 1, q);
    assert text[e] == text[..q][e];
    PastKeyIs(key, text, |a|, p);
    AfterIs(text, p, '=', e);
    AfterIs(text, e + 1, '"', q);
  }

  lemma SliceOfPrefix(text: string, q: nat, i: nat, j: nat)
    requires i <= j <= q <= |text|
    ensures text[..q][i..j] == text[i..j]
  {
  }

  lemma Parts(before: string, a: string, key: string, b: string, c: string)
    requires Opens(before, key, a, b, c)
    ensures Blank(a) && Blank(b) && Blank(c)
    ensures var p := |a| + |key|;
            var e := p + |b|;
            && |before| == e + 1 + |c| && before[0..|a|] == a && before[|a|..p] == key && before[p..e] == b
            && before[e] == '=' && before[e + 1..|before|] == c
  {
  }

  lemma {:induction false} ClosingMeans(text: string, j: nat, k: nat)
    requires j <= |text|
    ensures Closing(text, j) == Some(k) <==>
            && j <= k < |text| && text[k] == '"' && IsTail(text[k + 1..])
            && forall i :: j <= i < k && text[i] == '"' ==> !IsTail(text[i + 1..])
    decreases |text| - j
  {
    hide IsTail;
    if j < |text| && !(text[j] == '"' && IsTail(text[j + 1..])) {
      ClosingMeans(text, j + 1, k);
    }
  }

  lemma ShortestMeans(text: string, q: nat, k: nat)
    requires q < k < |text| && text[k] == '"'
    ensures (forall i :: q + 1 <= i < k && text[i] == '"' ==> !IsTail(text[i + 1..])) <==>
            Shortest(text[q + 1..k], text[k + 1..])
  {
    hide IsTail, Tail;
    var value, after := text[q + 1..k], text[k + 1..];
    forall i | q + 1 <= i < k
      ensures value[i - q - 1] == text[i]
      ensures IsTail(text[i + 1..]) <==> Tail(value[i - q..] + "\"" + after)
    {
      assert text[i + 1..] == value[i - q..] + "\"" + after;
      TailMeans(text[i + 1..]);
    }
    if forall i :: q + 1 <= i < k && text[i] == '"' ==> !IsTail(text[i + 1..]) {
      forall i | 0 <= i < |value| && value[i] == '"'
        ensures !Tail(value[i + 1..] + "\"" + after)
      {
        assert text[i + q + 1] == '"';
      }
    }
    if Shortest(value, after) {
      forall i | q + 1 <= i < k && text[i] == '"'
        ensures !IsTail(text[i + 1..])
      {
        assert value[i - q - 1] == '"';
      }
    }
  }

  /** The assignment pattern: the key between whitespace, an equals sign, and the shortest quoted value that a tail
      follows. */
  lemma AssignmentIsPattern(key: string, line: string, f: Field)
    requires BareKey(key)
    ensures Assignment(key, line) == Some(f) <==> Assigns(key, StripNewlines(line), f)
  {
    hide Opening, Closing, Tail, IsTail, BareKey, Opens, Shortest, StripNewlines;
    var text := StripNewlines(line);
    if AssignmentIn(key, text) == Some(f) {
      var q := Opening(key, text).value;
      var k := Closing(text, q + 1).value;
      OpeningMeans(key, text, q);
      ClosingMeans(text, q + 1, k);
      ShortestMeans(text, q, k);
      TailMeans(text[k + 1..]);
      assert text == text[..q] + "\"" + text[q + 1..k] + "\"" + text[k + 1..];
    }
    if Assigns(key, text, f) {
      PatternIsRead(key, text, f);
    }
  }

  lemma PatternIsRead(key: string, text: string, f: Field)
    requires BareKey(key) && Assigns(key, text, f)
    ensures AssignmentIn(key, text) == Some(f)
  {
    hide Opening, Closing, Tail, IsTail, BareKey, Opens, Shortest;
    var q := |f.before|;
    var k := q + 1 + |f.value|;
    assert text[..q] == f.before && text[q] == '"' && text[q + 1..k] == f.value;
    assert text[k] == '"' && text[k + 1..] == f.after;
    OpeningMeans(key, text, q);
    ShortestMeans(text, q, k);
    TailMeans(f.after);
    ClosingMeans(text, q + 1, k);
  }

  // Without c, up to the first c, or all of the text.
  lemma {:induction false} BeforeMeans(s: string, c: char)
    ensures Before(s, c) <= s && c !in Before(s, c) && (Before(s, c) == s || s[|Before(s, c)|] == c)
  {
    if s != [] && s[0] != c {
      BeforeMeans(s[1..], c);
      assert s == [s[0]] + s[1..];
    }
  }

  lemma BeforeIs(s: string, head: string, rest: string, c: char)
    requires s == head + rest && c !in head && (rest == "" || rest[0] == c)
    ensures Before(s, c) == head
  {
    BeforeMeans(s, c);
    var b := Before(s, c);
    assert forall i :: 0 <= i < |head| ==> s[i] == head[i] && head[i] in head;
    assert forall i :: 0 <= i < |b| ==> s[i] == b[i] && b[i] in b;
    assert rest != "" ==> s[|head|] == rest[0];
    assert |b| == |head|;
  }

  lemma BlankHasNo(s: string, c: char)
    requires Blank(s) && !IsSpace(c)
    ensures c !in s
  {
  }

  lemma BlankConcat(s: string, t: string)
    ensures Blank(s + t) <==> Blank(s) && Blank(t)
  {
    hide IsSpace;
    assert forall c :: c in s + t <==> c in s || c in t;
  }

  const KEEPER := "[keeper]"

  lemma KeeperWord()
    ensures |KEEPER| == 8 && !IsSpace(KEEPER[0]) && !IsSpace(KEEPER[7]) && '#' !in KEEPER
  {
  }

  ghost predicate Surrounds(s: string, a: string, b: string) {
    s == a + KEEPER + b && Blank(a) && Blank(b)
  }

  // What strips to the word is the word between whitespace.
  lemma StrippedParts(s: string) returns (a: string, b: string)
    requires Strip(s) == KEEPER
    ensures Surrounds(s, a, b)
  {
    hide IsSpace, KEEPER, Strip;
    var i, j := StripTrims(s);
    BlankSlice(s, 0, i);
    BlankSlice(s, j, |s|);
    assert s == s[0..i] + s[i..j] + s[j..|s|];
    a, b := s[0..i], s[j..|s|];
  }

  lemma BlankSlice(s: string, i: nat, j: nat)
    requires i <= j <= |s| && forall k :: i <= k < j ==> IsSpace(s[k])
    ensures Blank(s[i..j])
  {
    hide IsSpace;
  }

  // Stripping on the right stops at what is no whitespace.
  lemma StripRightStops(head: string, c: char, b: string)
    requires !IsSpace(c)
    ensures |StripRight(head + [c] + b)| > |head|
    ensures Blank(b) ==> StripRight(head + [c] + b) == head + [c]
  {
    hide IsSpace, StripRight;
    var s := head + [c] + b;
    StripRightIs(s);
    StripRightCuts(s);
    var core := StripRight(s);
    assert s[|head|] == c;
    if Blank(b) {
      assert forall i :: |head| < i < |s| ==> s[i] == b[i - |head| - 1] && b[i - |head| - 1] in b;
      assert core != [] && !IsSpace(core[|core| - 1]) && core[|core| - 1] == s[|core| - 1];
      assert |core| == |head| + 1;
    }
  }

  lemma KeeperStripped(s: string, a: string, b: string)
    requires Surrounds(s, a, b)
    ensures Strip(s) == KEEPER
  {
    hide IsSpace, KEEPER, StripRight;
    KeeperWord();
    var rest := KEEPER + b;
    assert s == a + rest;
    LeadIs(a, rest);
    assert s[Lead(s)..] == rest;
    assert KEEPER == KEEPER[..7] + [KEEPER[7]];
    StripRightStops(KEEPER[..7], KEEPER[7], b);
  }

  ghost predicate OpensKeeper(line: string, a: string, b: string, rest: string) {
    line == a + KEEPER + b + rest && Blank(a) && Blank(b) && (rest == "" || rest[0] == '#')
  }

  lemma HeaderStrips(line: string)
    ensures IsKeeperHeader(line) <==> Strip(Before(Strip(line), '#')) == KEEPER
  {
    hide Strip, Before;
  }

  // Cutting the stripped line at the hash cuts the line.
  lemma Reassemble(line: string, left: string, right: string, s: string, before: string, c: string, d: string)
    requires line == left + s + right && before <= s && before == c + KEEPER + d
    ensures line == (left + c) + KEEPER + d + (s[|before|..] + right)
    ensures before == s ==> line == (left + c) + KEEPER + (d + right)
  {
    hide KEEPER;
    assert s == before + s[|before|..];
  }

  lemma KeeperParts(line: string) returns (a: string, b: string, rest: string)
    requires IsKeeperHeader(line)
    ensures OpensKeeper(line, a, b, rest)
  {
    hide IsSpace, KEEPER, Strip, Before, Blank, IsKeeperHeader, Surrounds;
    HeaderStrips(line);
    var x, y := StripTrims(line);
    var s, left, right := Strip(line), line[0..x], line[y..|line|];
    var before := Before(s, '#');
    BeforeMeans(s, '#');
    var c, d := StrippedParts(before);
    BlankSlice(line, 0, x);
    BlankSlice(line, y, |line|);
    assert line == left + s + right;
    SurroundsMeans(before, c, d);
    Reassemble(line, left, right, s, before, c, d);
    BlankConcat(left, c);
    BlankConcat(d, right);
    if before == s {
      a, b, rest := left + c, d + right, "";
    } else {
      a, b, rest := left + c, d, s[|before|..] + right;
    }
  }

  lemma SurroundsMeans(s: string, a: string, b: string)
    requires Surrounds(s, a, b)
    ensures s == a + KEEPER + b && Blank(a) && Blank(b)
  {
  }

  lemma NoneIsBlank()
    ensures Blank("")
  {
  }

  lemma NoHash(b: string)
    requires Blank(b)
    ensures '#' !in KEEPER + b
  {
    KeeperWord();
    HashIsNoSpace();
    BlankHasNo(b, '#');
  }

  // Without a comment the whole line strips to the word.
  lemma PlainIsHeader(line: string, a: string, b: string)
    requires OpensKeeper(line, a, b, "")
    ensures IsKeeperHeader(line)
  {
    hide IsSpace, KEEPER, Strip, Before, Blank, IsKeeperHeader;
    HeaderStrips(line);
    assert line == a + KEEPER + b;
    KeeperStripped(line, a, b);
    NoneIsBlank();
    NoHash("");
    assert KEEPER + "" == KEEPER;
    BeforeIs(KEEPER, KEEPER, "", '#');
    assert KEEPER == "" + KEEPER + "";
    KeeperStripped(KEEPER, "", "");
  }

  // With one the stripped line still has the word and its hash.
  lemma StrippedKeepsHash(line: string, a: string, head: string, rest: string) returns (kept: string)
    requires line == a + head + rest && Blank(a) && head != "" && !IsSpace(head[0]) && rest != "" && rest[0] == '#'
    ensures kept != "" && kept[0] == '#' && Strip(line) == head + kept
  {
    hide IsSpace, StripRight, Blank;
    HashIsNoSpace();
    var from := head + rest;
    assert line == a + from;
    LeadIs(a, from);
    assert line[Lead(line)..] == from;
    assert from == head + ['#'] + rest[1..];
    StripRightIs(from);
    StripRightStops(head, '#', rest[1..]);
    var core := StripRight(from);
    kept := core[|head|..];
    assert core == head + kept;
  }

  lemma CommentedIsHeader(line: string, a: string, b: string, rest: string)
    requires OpensKeeper(line, a, b, rest) && rest != ""
    ensures IsKeeperHeader(line)
  {
    hide IsSpace, KEEPER, Strip, Before, Blank, IsKeeperHeader;
    KeeperWord();
    HeaderStrips(line);
    var head := KEEPER + b;
    assert line == a + head + rest;
    var kept := StrippedKeepsHash(line, a, head, rest);
    NoHash(b);
    BeforeIs(Strip(line), head, kept, '#');
    NoneIsBlank();
    assert head == "" + KEEPER + b;
    KeeperStripped(head, "", b);
  }

  lemma KeeperIsHeader(line: string, a: string, b: string, rest: string)
    requires OpensKeeper(line, a, b, rest)
    ensures IsKeeperHeader(line)
  {
    hide IsKeeperHeader, OpensKeeper;
    if rest == "" {
      PlainIsHeader(line, a, b);
    } else {
      CommentedIsHeader(line, a, b, rest);
    }
  }

  /** The keeper header: the bracketed word between whitespace, and nothing or a hash and anything behind it. */
  lemma KeeperHeaderIs(line: string)
    ensures IsKeeperHeader(line) <==> exists a, b, rest :: OpensKeeper(line, a, b, rest)
  {
    hide IsKeeperHeader, OpensKeeper;
    if IsKeeperHeader(line) {
      var a, b, rest := KeeperParts(line);
    }
    if a, b, rest :| OpensKeeper(line, a, b, rest) {
      KeeperIsHeader(line, a, b, rest);
    }
  }
}
