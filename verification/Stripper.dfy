/** strip_ocaml_comments_and_strings: blanks comments and strings, keeps line structure. */
module Stripper {

  datatype Mode = Mode(depth: nat, inString: bool)

  const CODE := Mode(0, false)

  predicate StartsWith(s: string, a: char, b: char) {
    |s| >= 2 && s[0] == a && s[1] == b
  }

  // What one blanked character turns into.
  function Blank(c: char): char {
    if c == '\n' then '\n' else ' '
  }

  function Blanks(s: string): string {
    if s == [] then [] else [Blank(s[0])] + Blanks(s[1..])
  }

  // One turn of the scan at the head of s: the characters emitted, as many as are consumed, and
  // the mode after them.
  function Turn(s: string, m: Mode): (r: (string, Mode))
    requires s != []
    ensures 1 <= |r.0| <= |s|
  {
    if m.depth > 0 then
      if StartsWith(s, '(', '*') then ("  ", m.(depth := m.depth + 1))
      else if StartsWith(s, '*', ')') then ("  ", m.(depth := m.depth - 1))
      else ([Blank(s[0])], m)
    else if m.inString then
      if s[0] == '\\' && |s| > 1 then ([Blank(s[0]), Blank(s[1])], m)
      else if s[0] == '"' then (" ", m.(inString := false))
      else ([Blank(s[0])], m)
    else if StartsWith(s, '(', '*') then ("  ", m.(depth := 1))
    else if s[0] == '"' then (" ", m.(inString := true))
    else ([s[0]], m)
  }

  // The whole scan from mode m.
  function Strip(s: string, m: Mode): string {
    if s == [] then [] else
      var (out, m') := Turn(s, m);
      out + Strip(s[|out|..], m')
  }

  /** The scan as written: a while loop over i, looking two characters ahead. */
  method StripText(content: string) returns (out: string)
    ensures out == Strip(content, CODE)
  {
    hide Strip;
    out := [];
    var i, commentDepth: nat, inString := 0, 0, false;
    while i < |content|
      invariant 0 <= i <= |content|
      invariant out + Strip(content[i..], Mode(commentDepth, inString)) == Strip(content, CODE)
    {
      var two := content[i..if i + 2 <= |content| then i + 2 else |content|];
      var ch := content[i];
      ghost var s, m := content[i..], Mode(commentDepth, inString);
      TwoAhead(content, i, two);
      var emitted;
      if commentDepth > 0 {
        if two == "(*" {
          commentDepth := commentDepth + 1;
          emitted := "  ";
        } else if two == "*)" {
          commentDepth := commentDepth - 1;
          emitted := "  ";
        } else if ch == '\n' {
          emitted := "\n";
        } else {
          emitted := " ";
        }
      } else if inString {
        if ch == '\\' && i + 1 < |content| {
          emitted := if ch == '\n' then "\n" else " ";
          var nextCh := content[i + 1];
          emitted := emitted + if nextCh == '\n' then "\n" else " ";
          assert emitted == [Blank(s[0]), Blank(s[1])];
        } else if ch == '"' {
          inString := false;
          emitted := " ";
        } else if ch == '\n' {
          emitted := "\n";
        } else {
          emitted := " ";
        }
      } else if two == "(*" {
        commentDepth := 1;
        emitted := "  ";
      } else if ch == '"' {
        inString := true;
        emitted := " ";
      } else {
        emitted := [ch];
      }
      assert Turn(s, m) == (emitted, Mode(commentDepth, inString));
      Advance(content, i, m, emitted, Mode(commentDepth, inString), out);
      out := out + emitted;
      i := i + |emitted|;
    }
    StripsNothing(content[i..], Mode(commentDepth, inString));
    assert out + [] == out;
  }

  lemma TwoAhead(content: string, i: nat, two: string)
    requires i < |content| && two == content[i..if i + 2 <= |content| then i + 2 else |content|]
    ensures two == "(*" <==> StartsWith(content[i..], '(', '*')
    ensures two == "*)" <==> StartsWith(content[i..], '*', ')')
  {
    assert |two| == 2 ==> two == [content[i..][0], content[i..][1]];
  }

  lemma StripsNothing(s: string, m: Mode)
    ensures s == [] ==> Strip(s, m) == []
  {
  }

  lemma Advance(content: string, i: nat, m: Mode, emitted: string, m': Mode, out: string)
    requires i < |content| && Turn(content[i..], m) == (emitted, m')
    ensures i + |emitted| <= |content|
    ensures out + Strip(content[i..], m) == (out + emitted) + Strip(content[i + |emitted|..], m')
  {
    assert content[i..][|emitted|..] == content[i + |emitted|..];
  }

  // Length and every newline stay exactly in place; any other character is kept or blanked.
  lemma {:induction false} KeepsLayout(s: string, m: Mode, k: nat)
    requires k < |s|
    ensures |Strip(s, m)| == |s|
    ensures Strip(s, m)[k] == '\n' <==> s[k] == '\n'
    ensures Strip(s, m)[k] == s[k] || Strip(s, m)[k] == ' '
  {
    var (out, m') := Turn(s, m);
    var rest := s[|out|..];
    if rest != [] {
      KeepsLayout(rest, m', if k < |out| then 0 else k - |out|);
    }
  }

  ghost predicate NoMarkers(t: string) {
    && (forall k :: 0 <= k < |t| ==> t[k] != '"')
    && (forall k :: 0 <= k < |t| - 1 ==> !(t[k] == '(' && t[k + 1] == '*'))
  }

  // The first character of the output is never a star that was not at the head of code.
  lemma HeadOfStrip(s: string, m: Mode)
    requires s != []
    ensures Strip(s, m) != [] && (Strip(s, m)[0] == ' ' || Strip(s, m)[0] == s[0])
  {
    KeepsLayout(s, m, 0);
  }

  // The output opens no comment and no string.
  lemma {:induction false} LeavesNoMarkers(s: string, m: Mode)
    ensures NoMarkers(Strip(s, m))
  {
    if s != [] {
      var (out, m') := Turn(s, m);
      var rest := s[|out|..];
      LeavesNoMarkers(rest, m');
      if rest != [] {
        HeadOfStrip(rest, m');
      }
      assert Strip(s, m) == out + Strip(rest, m');
    }
  }

  // A text with neither marker passes unchanged.
  lemma {:induction false} MarkerFreeIsFixed(t: string)
    requires NoMarkers(t)
    ensures Strip(t, CODE) == t
  {
    if t != [] {
      assert !StartsWith(t, '(', '*');
      assert forall k :: 0 <= k < |t[1..]| ==> t[1..][k] == t[k + 1];
      MarkerFreeIsFixed(t[1..]);
    }
  }

  // Stripping twice is stripping once, and exactly the marker-free texts are unchanged by it.
  lemma StripIdempotent(s: string)
    ensures Strip(Strip(s, CODE), CODE) == Strip(s, CODE)
    ensures Strip(s, CODE) == s <==> NoMarkers(s)
  {
    LeavesNoMarkers(s, CODE);
    MarkerFreeIsFixed(Strip(s, CODE));
    if NoMarkers(s) {
      MarkerFreeIsFixed(s);
    }
  }
}
