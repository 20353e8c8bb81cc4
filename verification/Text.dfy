/** Python's notion of whitespace, `strip`, and the substring test. */
module Text {

  // Python's str.isspace on one character, which is also what \s matches.
  predicate IsSpace(c: char) {
    var n := c as int;
    || 9 <= n <= 13 || 28 <= n <= 32 || n == 133 || n == 160 || n == 5760 || 8192 <= n <= 8202
    || n == 8232 || n == 8233 || n == 8239 || n == 8287 || n == 12288
  }

  // How many whitespace characters s begins with.
  function Lead(s: string): (n: nat)
    ensures n <= |s| && (n < |s| ==> !IsSpace(s[n]))
    ensures forall i :: 0 <= i < n ==> IsSpace(s[i])
  {
    if s == [] || !IsSpace(s[0]) then 0 else 1 + Lead(s[1..])
  }

  function StripRight(s: string): string {
    if s == [] || !IsSpace(s[|s| - 1]) then s else StripRight(s[..|s| - 1])
  }

  function Strip(s: string): string {
    StripRight(s[Lead(s)..])
  }

  lemma {:induction false} StripRightIs(s: string)
    ensures StripRight(s) <= s
    ensures StripRight(s) != [] ==> !IsSpace(StripRight(s)[|StripRight(s)| - 1])
  {
    if s != [] && IsSpace(s[|s| - 1]) {
      StripRightIs(s[..|s| - 1]);
    }
  }

  lemma {:induction false} StripRightCuts(s: string)
    ensures StripRight(s) <= s && forall i :: |StripRight(s)| <= i < |s| ==> IsSpace(s[i])
  {
    if s != [] && IsSpace(s[|s| - 1]) {
      StripRightCuts(s[..|s| - 1]);
    }
  }

  // What is left has no whitespace at either end, and what is cut off is whitespace.
  lemma StripTrims(s: string) returns (a: nat, b: nat)
    ensures a <= b <= |s| && Strip(s) == s[a..b]
    ensures forall i :: 0 <= i < a || b <= i < |s| ==> IsSpace(s[i])
    ensures a < b ==> !IsSpace(s[a]) && !IsSpace(s[b - 1])
  {
    hide IsSpace;
    a := Lead(s);
    var rest := s[a..];
    StripRightIs(rest);
    StripRightCuts(rest);
    b := a + |StripRight(rest)|;
    forall i | b <= i < |s|
      ensures IsSpace(s[i])
    {
      assert rest[i - a] == s[i];
    }
  }

  lemma StripsToItself(s: string)
    requires s != [] && !IsSpace(s[0]) && !IsSpace(s[|s| - 1])
    ensures Strip(s) == s
  {
    assert s[Lead(s)..] == s;
  }

  lemma StripTwice(s: string)
    ensures Strip(Strip(s)) == Strip(s)
  {
    StripRightIs(s[Lead(s)..]);
    if Strip(s) != [] {
      hide StripRight;
      StripsToItself(Strip(s));
    }
  }

  // The needle occurs in the text.
  predicate Contains(text: string, needle: string) {
    exists i :: 0 <= i <= |text| && needle <= text[i..]
  }

  lemma ContainsMeans(text: string, needle: string)
    ensures Contains(text, needle) <==> exists a, b :: text == a + needle + b
  {
    if Contains(text, needle) {
      var i :| 0 <= i <= |text| && needle <= text[i..];
      assert text == text[..i] + needle + text[i + |needle|..];
    }
    if a, b :| text == a + needle + b {
      assert text[|a|..] == needle + b;
    }
  }

  // str.lower on the letters A to Z, which decides whether an English word occurs in the lowered text.
  function Lower(text: string): string {
    seq(|text|, i requires 0 <= i < |text| =>
      if 'A' <= text[i] <= 'Z' then (text[i] as int + 32) as char else text[i])
  }

  const UPPER := "ABCDEFGHIJKLMNOPQRSTUVWXYZ"
  const LOWER := "abcdefghijklmnopqrstuvwxyz"

  lemma Letters()
    ensures |UPPER| == |LOWER| == 26
    ensures forall k :: 0 <= k < 26 ==> UPPER[k] as int == 'A' as int + k && LOWER[k] as int == 'a' as int + k
  {
  }

  // Each capital letter becomes its small letter, and nothing else changes.
  lemma LowerMeans(text: string)
    ensures |Lower(text)| == |text|
    ensures forall i, k :: 0 <= i < |text| && 0 <= k < 26 && text[i] == UPPER[k] ==> Lower(text)[i] == LOWER[k]
    ensures forall i :: 0 <= i < |text| && text[i] !in UPPER ==> Lower(text)[i] == text[i]
  {
    Letters();
    hide UPPER, LOWER;
    forall i | 0 <= i < |text| && 'A' <= text[i] <= 'Z'
      ensures text[i] in UPPER
    {
      assert UPPER[text[i] as int - 'A' as int] == text[i];
    }
  }
}
