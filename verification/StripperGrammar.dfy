/** The stripper against a grammar: texts built from code, string literals and nested comments. */
module StripperGrammar {
  import opened Stripper

  datatype Item = Text(c: char) | Nested(body: seq<Item>)
  datatype StringItem = Plain(c: char) | Escaped(c: char)
  datatype Piece = Code(c: char) | Literal(chars: seq<StringItem>) | Comment(items: seq<Item>)

  function ItemText(it: Item): string {
    match it
    case Text(c) => [c]
    case Nested(body) => "(*" + ItemsText(body) + "*)"
  }

  function ItemsText(b: seq<Item>): string {
    if b == [] then "" else ItemText(b[0]) + ItemsText(b[1..])
  }

  function CharsText(b: seq<StringItem>): string {
    if b == [] then "" else (if b[0].Plain? then [b[0].c] else ['\\', b[0].c]) + CharsText(b[1..])
  }

  function PieceText(p: Piece): string {
    match p
    case Code(c) => [c]
    case Literal(b) => "\"" + CharsText(b) + "\""
    case Comment(b) => "(*" + ItemsText(b) + "*)"
  }

  function ProgramText(ps: seq<Piece>): string {
    if ps == [] then "" else PieceText(ps[0]) + ProgramText(ps[1..])
  }

  // What stripping should leave: code as it is, everything else blanked in place.
  function Rendered(ps: seq<Piece>): string {
    if ps == [] then ""
    else (if ps[0].Code? then [ps[0].c] else Blanks(PieceText(ps[0]))) + Rendered(ps[1..])
  }

  // A comment's plain characters must not form a comment bracket with the text after them.
  predicate LegalItem(it: Item, after: string) {
    match it
    case Text(c) => !StartsWith([c] + after, '(', '*') && !StartsWith([c] + after, '*', ')')
    case Nested(body) => LegalItems(body, "*)" + after)
  }

  predicate LegalItems(b: seq<Item>, after: string) {
    b == [] || (LegalItem(b[0], ItemsText(b[1..]) + after) && LegalItems(b[1..], after))
  }

  predicate LegalChars(b: seq<StringItem>) {
    forall i :: 0 <= i < |b| ==> b[i].Plain? ==> b[i].c != '"' && b[i].c != '\\'
  }

  predicate LegalPiece(p: Piece, after: string) {
    match p
    case Code(c) => c != '"' && !StartsWith([c] + after, '(', '*')
    case Literal(b) => LegalChars(b)
    case Comment(b) => LegalItems(b, "*)" + after)
  }

  predicate Legal(ps: seq<Piece>) {
    ps == [] || (LegalPiece(ps[0], ProgramText(ps[1..])) && Legal(ps[1..]))
  }

  // The mode the scan is in after the whole of s.
  function EndMode(s: string, m: Mode): Mode {
    if s == [] then m else
      var (out, m') := Turn(s, m);
      EndMode(s[|out|..], m')
  }

  // The scan of head + rest is `shown` followed by the scan of rest from mode m'.
  ghost predicate Scans(head: string, rest: string, m: Mode, shown: string, m': Mode) {
    && Strip(head + rest, m) == shown + Strip(rest, m')
    && EndMode(head + rest, m) == EndMode(rest, m')
  }

  lemma ScanOne(head: string, rest: string, m: Mode, shown: string, m': Mode)
    requires head != [] && Turn(head + rest, m) == (shown, m') && |shown| == |head|
    ensures Scans(head, rest, m, shown, m')
  {
    assert (head + rest)[|head|..] == rest;
  }

  lemma ScanChain(a: string, b: string, rest: string, m0: Mode, x: string, m1: Mode, y: string, m2: Mode)
    requires Scans(a, b + rest, m0, x, m1) && Scans(b, rest, m1, y, m2)
    ensures Scans(a + b, rest, m0, x + y, m2)
  {
    assert (a + b) + rest == a + (b + rest);
    assert x + (y + Strip(rest, m2)) == (x + y) + Strip(rest, m2);
  }

  lemma {:induction false} BlanksConcat(a: string, b: string)
    ensures Blanks(a + b) == Blanks(a) + Blanks(b)
  {
    if a == [] {
      assert a + b == b;
    } else {
      assert (a + b)[1..] == a[1..] + b;
      BlanksConcat(a[1..], b);
    }
  }

  // A whole comment, brackets included, is blanked and leaves the mode as it found it.
  lemma {:induction false} ScanComment(b: seq<Item>, after: string, d: nat)
    requires LegalItems(b, "*)" + after)
    ensures Scans("(*" + ItemsText(b) + "*)", after, Mode(d, false), Blanks("(*" + ItemsText(b) + "*)"), Mode(d, false))
    decreases b, 1
  {
    var t := ItemsText(b);
    var m, m' := Mode(d, false), Mode(d + 1, false);
    var rest := (t + "*)") + after;
    assert ("(*" + rest)[0] == '(' && ("(*" + rest)[1] == '*';
    ScanOne("(*", rest, m, "  ", m');
    assert ("*)" + after)[0] == '*' && ("*)" + after)[1] == ')';
    ScanOne("*)", after, m', "  ", m);
    ScanItems(b, "*)" + after, d + 1);
    ScanChain(t, "*)", after, m', Blanks(t), m', "  ", m);
    ScanChain("(*", t + "*)", after, m, "  ", m', Blanks(t) + "  ", m);
    assert "(*" + (t + "*)") == "(*" + t + "*)";
    BlanksConcat("(*" + t, "*)");
    BlanksConcat("(*", t);
    assert Blanks("(*") == "  " && Blanks("*)") == "  ";
    assert "  " + (Blanks(t) + "  ") == ("  " + Blanks(t)) + "  ";
  }

  lemma {:induction false} ScanItems(b: seq<Item>, after: string, d: nat)
    requires LegalItems(b, after) && d > 0
    ensures Scans(ItemsText(b), after, Mode(d, false), Blanks(ItemsText(b)), Mode(d, false))
    decreases b, 0
  {
    var m := Mode(d, false);
    if b == [] {
      assert "" + after == after;
    } else {
      var rest := ItemsText(b[1..]);
      ScanItems(b[1..], after, d);
      match b[0] {
        case Text(c) =>
          assert Turn([c] + (rest + after), m) == ([Blank(c)], m);
          ScanOne([c], rest + after, m, [Blank(c)], m);
          assert Blanks([c]) == [Blank(c)];
        case Nested(body) =>
          ScanComment(body, rest + after, d);
      }
      ScanChain(ItemText(b[0]), rest, after, m, Blanks(ItemText(b[0])), m, Blanks(rest), m);
      BlanksConcat(ItemText(b[0]), rest);
    }
  }

  lemma {:induction false} ScanChars(b: seq<StringItem>, after: string)
    requires LegalChars(b)
    ensures Scans(CharsText(b), after, Mode(0, true), Blanks(CharsText(b)), Mode(0, true))
  {
    var m := Mode(0, true);
    if b == [] {
      assert "" + after == after;
    } else {
      var rest := CharsText(b[1..]);
      ScanChars(b[1..], after);
      var head := if b[0].Plain? then [b[0].c] else ['\\', b[0].c];
      assert (head + (rest + after))[0] == head[0];
      if b[0].Plain? {
        assert Blanks(head) == [Blank(head[0])];
      } else {
        assert head[1..] == [b[0].c];
        assert Blanks(head[1..]) == [Blank(b[0].c)];
        assert (head + (rest + after))[1] == b[0].c;
        assert Blanks(head) == [Blank(head[0]), Blank(head[1])];
      }
      ScanOne(head, rest + after, m, Blanks(head), m);
      ScanChain(head, rest, after, m, Blanks(head), m, Blanks(rest), m);
      BlanksConcat(head, rest);
    }
  }

  lemma ScanLiteral(b: seq<StringItem>, after: string)
    requires LegalChars(b)
    ensures Scans("\"" + CharsText(b) + "\"", after, CODE, Blanks("\"" + CharsText(b) + "\""), CODE)
  {
    var t, q, m := CharsText(b), "\"", Mode(0, true);
    assert (q + ((t + q) + after))[0] == '"' && (q + after)[0] == '"';
    ScanOne(q, (t + q) + after, CODE, " ", m);
    ScanOne(q, after, m, " ", CODE);
    ScanChars(b, q + after);
    ScanChain(t, q, after, m, Blanks(t), m, " ", CODE);
    ScanChain(q, t + q, after, CODE, " ", m, Blanks(t) + " ", CODE);
    assert q + (t + q) == q + t + q;
    BlanksConcat(q + t, q);
    BlanksConcat(q, t);
    assert Blanks(q) == " ";
    assert " " + (Blanks(t) + " ") == (" " + Blanks(t)) + " ";
  }

  // Stripping a program of the grammar blanks its comments and literals and keeps its code.
  lemma {:induction false} StripProgram(ps: seq<Piece>)
    requires Legal(ps)
    ensures Strip(ProgramText(ps), CODE) == Rendered(ps)
    ensures EndMode(ProgramText(ps), CODE) == CODE
  {
    if ps != [] {
      var rest := ProgramText(ps[1..]);
      StripProgram(ps[1..]);
      match ps[0] {
        case Code(c) => ScanOne([c], rest, CODE, [c], CODE);
        case Literal(b) => ScanLiteral(b, rest);
        case Comment(b) => ScanComment(b, rest, 0);
      }
    }
  }

  // ---- every text whose scan ends in code is such a program ----

  lemma JoinTail(s: string, k: nat, t: string, close: string, rest: string)
    requires k <= |s| && s[k..] == t + close + rest
    ensures s == (s[..k] + t) + close + rest
    ensures [] != s ==> [s[0]] == s[..1]
    ensures t + close + rest == t + (close + rest)
  {
  }

  lemma JoinNested(s: string, inner: string, after: string, tail: string, rest: string)
    requires StartsWith(s, '(', '*') && s[2..] == inner + "*)" + after && after == tail + "*)" + rest
    ensures s == (("(*" + inner + "*)") + tail) + "*)" + rest
    ensures tail + "*)" + rest == tail + ("*)" + rest)
    ensures inner + "*)" + after == inner + ("*)" + after)
  {
    assert s == "(*" + s[2..];
  }

  lemma {:induction false} ParseItems(s: string, d: nat) returns (b: seq<Item>, rest: string)
    requires EndMode(s, Mode(d + 1, false)) == CODE
    ensures s == ItemsText(b) + "*)" + rest && LegalItems(b, "*)" + rest)
    ensures EndMode(rest, Mode(d, false)) == CODE
    decreases |s|
  {
    if StartsWith(s, '(', '*') {
      var inner, after := ParseItems(s[2..], d + 1);
      var tail;
      tail, rest := ParseItems(after, d);
      b := [Nested(inner)] + tail;
      assert b[1..] == tail;
      JoinNested(s, ItemsText(inner), after, ItemsText(tail), rest);
    } else if StartsWith(s, '*', ')') {
      b, rest := [], s[2..];
      assert s == "*)" + rest;
      assert "" + "*)" == "*)";
    } else {
      var tail;
      tail, rest := ParseItems(s[1..], d);
      b := [Text(s[0])] + tail;
      assert b[1..] == tail;
      JoinTail(s, 1, ItemsText(tail), "*)", rest);
    }
  }

  lemma {:induction false} ParseChars(s: string) returns (b: seq<StringItem>, rest: string)
    requires EndMode(s, Mode(0, true)) == CODE
    ensures s == CharsText(b) + "\"" + rest && LegalChars(b)
    ensures EndMode(rest, CODE) == CODE
    decreases |s|
  {
    if s[0] == '"' {
      b, rest := [], s[1..];
      assert s == "\"" + rest;
      assert "" + "\"" == "\"";
    } else {
      var head := if s[0] == '\\' && |s| > 1 then s[..2] else s[..1];
      var tail;
      tail, rest := ParseChars(s[|head|..]);
      b := [if |head| == 2 then Escaped(s[1]) else Plain(s[0])] + tail;
      assert b[1..] == tail;
      JoinTail(s, |head|, CharsText(tail), "\"", rest);
    }
  }

  lemma ParsePiece(s: string) returns (p: Piece, rest: string)
    requires s != [] && EndMode(s, CODE) == CODE
    ensures s == PieceText(p) + rest && LegalPiece(p, rest) && PieceText(p) != []
    ensures EndMode(rest, CODE) == CODE
  {
    if StartsWith(s, '(', '*') {
      var b;
      b, rest := ParseItems(s[2..], 0);
      p := Comment(b);
      JoinTail(s, 2, ItemsText(b), "*)", rest);
      assert s[..2] == "(*";
    } else if s[0] == '"' {
      var b;
      b, rest := ParseChars(s[1..]);
      p := Literal(b);
      JoinTail(s, 1, CharsText(b), "\"", rest);
      assert s[..1] == "\"";
    } else {
      p, rest := Code(s[0]), s[1..];
      assert s == [s[0]] + s[1..];
    }
  }

  lemma {:induction false} ParseProgram(s: string) returns (ps: seq<Piece>)
    requires EndMode(s, CODE) == CODE
    ensures Legal(ps) && ProgramText(ps) == s
    decreases |s|
  {
    if s == [] {
      ps := [];
    } else {
      var p, rest := ParsePiece(s);
      var tail := ParseProgram(rest);
      ps := [p] + tail;
      assert ps[1..] == tail;
    }
  }

  // The scan ends outside every comment and string exactly on the programs of the grammar.
  lemma EndsInCodeIffProgram(s: string)
    ensures EndMode(s, CODE) == CODE <==> exists ps :: Legal(ps) && ProgramText(ps) == s
  {
    if EndMode(s, CODE) == CODE {
      var ps := ParseProgram(s);
    }
    forall ps | Legal(ps) && ProgramText(ps) == s
      ensures EndMode(s, CODE) == CODE
    {
      StripProgram(ps);
    }
  }
}
