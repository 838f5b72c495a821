/**
 * How Solidity reads comments, and when the comments that vm.py prints hide the descriptions put into them. A `//`
 * comment ends at any line terminator and a block comment at its first closing mark, so both conditions are about
 * what a description contains.
 */
module SolidityReader {
  import opened Printer

  // ---------------------------------------------------------------- the reader

  /** Outside comments, with or without a slash just read; in a line comment; in a block comment, with or without a
      star just read. */
  datatype Lex = Outside | AfterSlash | InLine | InBlock | AfterStar

  /** LF, VT, FF, CR, NEL, LS and PS. */
  predicate LineEnd(c: char) { '\U{A}' <= c <= '\U{D}' || c == '\U{85}' || c == '\U{2028}' || c == '\U{2029}' }

  function Move(x: Lex, c: char): Lex {
    match x
    case Outside => if c == '/' then AfterSlash else Outside
    case AfterSlash => if c == '/' then InLine else if c == '*' then InBlock else Outside
    case InLine => if LineEnd(c) then Outside else InLine
    case InBlock => if c == '*' then AfterStar else InBlock
    case AfterStar => if c == '/' then Outside else if c == '*' then AfterStar else InBlock
  }

  function MoveAll(x: Lex, s: string): Lex {
    if s == [] then x else Move(MoveAll(x, s[..|s| - 1]), s[|s| - 1])
  }

  lemma {:induction false} MoveAppend(x: Lex, a: string, b: string)
    ensures MoveAll(x, a + b) == MoveAll(MoveAll(x, a), b)
    decreases |b|
  {
    if b == [] {
      assert a + b == a;
    } else {
      var front := b[..|b| - 1];
      assert (a + b)[..|a + b| - 1] == a + front && (a + b)[|a + b| - 1] == b[|b| - 1];
      MoveAppend(x, a, front);
    }
  }

  lemma {:induction false} MoveOne(x: Lex, s: string, k: nat)
    requires k < |s|
    ensures MoveAll(x, s[..k + 1]) == Move(MoveAll(x, s[..k]), s[k])
  {
    assert s[..k + 1][..k] == s[..k];
  }

  /** Text without slashes opens no comment. */
  lemma {:induction false} StaysText(s: string)
    requires '/' !in s
    ensures MoveAll(Outside, s) == Outside
  {
    if s != [] { StaysText(s[..|s| - 1]); }
  }

  lemma {:induction false} IndentStaysText(st: Style, level: int)
    requires '/' !in st.indentStr
    ensures '/' !in Indent(st, level) && MoveAll(Outside, Indent(st, level)) == Outside
  {
    if level > 0 { IndentStaysText(st, level - 1); }
    StaysText(Indent(st, level));
  }

  // ---------------------------------------------------------------- line comments

  predicate OneLine(s: string) { forall c :: c in s ==> !LineEnd(c) }

  /** Solidity's white space. The other line terminators end a comment too, but are no part of any program. */
  predicate Blank(c: char) { c == ' ' || c == '\t' || c == '\n' || c == '\r' }

  /** The character is read as code. The terminator that ends a line comment is no part of it. */
  predicate ReadAsCode(x: Lex, c: char) { x.Outside? || x.AfterSlash? || (x.InLine? && LineEnd(c)) }

  /** From its first line terminator on, the text is blank. */
  predicate BlankOnceEnded(s: string) { forall k, j :: 0 <= k <= j < |s| && LineEnd(s[k]) ==> Blank(s[j]) }

  /** In a line comment, nothing of the text is read as code but white space. */
  ghost predicate ShowsOnlyBlanks(s: string) {
    forall k :: 0 <= k < |s| && ReadAsCode(MoveAll(InLine, s[..k]), s[k]) ==> Blank(s[k])
  }

  lemma {:induction false} StaysInLine(s: string, k: nat)
    requires OneLine(s) && k <= |s|
    ensures MoveAll(InLine, s[..k]) == InLine
  {
    if k > 0 {
      StaysInLine(s, k - 1);
      MoveOne(InLine, s, k - 1);
    }
  }

  predicate Ended(s: string) { exists k :: 0 <= k < |s| && LineEnd(s[k]) }

  /** Such text leaves the reader in the comment, or outside it once a terminator has passed. */
  lemma {:induction false} InLineOrOutside(s: string)
    requires BlankOnceEnded(s)
    ensures MoveAll(InLine, s) == if Ended(s) then Outside else InLine
  {
    if s != [] {
      var n := |s| - 1;
      var front := s[..n];
      assert forall k, j :: 0 <= k <= j < n && LineEnd(front[k]) ==> Blank(front[j]);
      InLineOrOutside(front);
      if Ended(front) {
        var k :| 0 <= k < n && LineEnd(front[k]);
        assert LineEnd(s[k]) && Blank(s[n]);
      } else {
        assert forall k :: 0 <= k < n ==> s[k] == front[k];
        assert Ended(s) <==> LineEnd(s[n]);
      }
    }
  }

  lemma {:induction false} ShownPrefix(s: string, n: nat)
    requires ShowsOnlyBlanks(s) && n <= |s|
    ensures BlankOnceEnded(s[..n])
  {
    if n > 0 {
      var front := s[..n - 1];
      ShownPrefix(s, n - 1);
      InLineOrOutside(front);
      assert ReadAsCode(MoveAll(InLine, s[..n - 1]), s[n - 1]) <==> Ended(front) || LineEnd(s[n - 1]);
      forall k, j | 0 <= k <= j < n && LineEnd(s[..n][k]) ensures Blank(s[..n][j]) {
        if j < n - 1 {
          assert LineEnd(front[k]) && Blank(front[j]);
        } else if k < n - 1 {
          assert LineEnd(front[k]);
        }
      }
    }
  }

  /** In a line comment, text shows nothing but white space exactly when it is blank from its first terminator on. */
  lemma {:induction false} LineHidesIff(s: string)
    ensures ShowsOnlyBlanks(s) <==> BlankOnceEnded(s)
  {
    if ShowsOnlyBlanks(s) {
      ShownPrefix(s, |s|);
      assert s[..|s|] == s;
    }
    if BlankOnceEnded(s) {
      forall k | 0 <= k < |s| && ReadAsCode(MoveAll(InLine, s[..k]), s[k]) ensures Blank(s[k]) {
        var front := s[..k];
        assert forall i, j :: 0 <= i <= j < k && LineEnd(front[i]) ==> Blank(front[j]);
        InLineOrOutside(front);
        if Ended(front) {
          var i :| 0 <= i < k && LineEnd(front[i]);
          assert LineEnd(s[i]);
        }
      }
    }
  }

  lemma {:induction false} OneLineIsHidden(a: string, b: string)
    requires OneLine(a) && BlankOnceEnded(b)
    ensures BlankOnceEnded(a + b)
  {
    var s := a + b;
    forall k | 0 <= k < |a| ensures !LineEnd(s[k]) { assert a[k] in a; }
    forall k, j | 0 <= k <= j < |s| && LineEnd(s[k]) ensures Blank(s[j]) {
      if k >= |a| {
        assert LineEnd(b[k - |a|]) && Blank(b[j - |a|]);
      }
    }
  }

  /** The printed comment up to where line `i` of the description begins. */
  function UpTo(st: Style, level: int, doc: bool, lines: seq<string>, i: nat): string
    requires i < |lines|
  {
    Indent(st, level) + LineComment(st, level, doc, lines, i) + (if i == 0 then "" else Indent(st, level))
    + Marker(doc)
  }

  /** In the printed comment, character `k` of line `i` is read as code. */
  predicate Shown(st: Style, level: int, doc: bool, lines: seq<string>, i: nat, k: nat)
    requires i < |lines| && k < |lines[i]|
  {
    ReadAsCode(MoveAll(Outside, UpTo(st, level, doc, lines, i) + lines[i][..k]), lines[i][k])
  }

  /** Nothing of the description is read as code but white space. */
  ghost predicate Hidden(st: Style, level: int, doc: bool, lines: seq<string>) {
    forall i, k :: 0 <= i < |lines| && 0 <= k < |lines[i]| && Shown(st, level, doc, lines, i, k) ==> Blank(lines[i][k])
  }

  lemma {:induction false} MarkerOpens(doc: bool)
    ensures MoveAll(Outside, Marker(doc)) == InLine
  {
    assert Marker(doc) == "//" + (if doc then "/ " else " ");
    assert "//"[..1] == "/" && "/"[..0] == "";
    MoveAppend(Outside, "//", if doc then "/ " else " ");
    StaysInLine(if doc then "/ " else " ", if doc then 2 else 1);
    assert "/ "[..2] == "/ " && " "[..1] == " ";
  }

  lemma {:induction false} NextLine(st: Style, level: int, doc: bool, lines: seq<string>, n: nat)
    requires st.nl == "\n" && n < |lines|
    ensures Indent(st, level) + LineComment(st, level, doc, lines, n + 1)
            == UpTo(st, level, doc, lines, n) + lines[n] + "\n"
  {
    var again := if n == 0 then "" else Indent(st, level);
    Regroup(Indent(st, level), LineComment(st, level, doc, lines, n), again, Marker(doc), lines[n], "\n");
  }

  lemma {:induction false} Regroup(a: string, b: string, c: string, d: string, e: string, f: string)
    ensures a + (b + (c + d + e + f)) == a + b + c + d + e + f
  {
    Assoc(c + d, e, f);
    Assoc(a, b, c + d + e + f);
    Assoc(a + b, c + d + e, f);
    Assoc(a + b, c + d, e);
    Assoc(a + b, c, d);
  }

  lemma {:induction false} LineCloses(before: string, line: string)
    requires MoveAll(Outside, before) == InLine && BlankOnceEnded(line)
    ensures MoveAll(Outside, before + line + "\n") == Outside
  {
    MoveAppend(Outside, before, line);
    InLineOrOutside(line);
    MoveAppend(Outside, before + line, "\n");
    assert "\n"[..0] == "";
  }

  /** Lines before `n` that show nothing leave the reader outside comments where line `n` is printed. */
  lemma {:induction false} LinesClosed(st: Style, level: int, doc: bool, lines: seq<string>, n: nat)
    requires st.nl == "\n" && '/' !in st.indentStr
    requires n <= |lines| && forall i :: 0 <= i < n ==> BlankOnceEnded(lines[i])
    ensures MoveAll(Outside, Indent(st, level) + LineComment(st, level, doc, lines, n)) == Outside
    decreases n, 0
  {
    if n == 0 {
      IndentStaysText(st, level);
      assert Indent(st, level) + "" == Indent(st, level);
    } else {
      LineOpened(st, level, doc, lines, n - 1);
      NextLine(st, level, doc, lines, n - 1);
      LineCloses(UpTo(st, level, doc, lines, n - 1), lines[n - 1]);
    }
  }

  lemma {:induction false} LineOpened(st: Style, level: int, doc: bool, lines: seq<string>, n: nat)
    requires st.nl == "\n" && '/' !in st.indentStr
    requires n < |lines| && forall i :: 0 <= i < n ==> BlankOnceEnded(lines[i])
    ensures MoveAll(Outside, UpTo(st, level, doc, lines, n)) == InLine
    decreases n, 1
  {
    var printed := Indent(st, level) + LineComment(st, level, doc, lines, n);
    var again := if n == 0 then "" else Indent(st, level);
    LinesClosed(st, level, doc, lines, n);
    IndentStaysText(st, level);
    MoveAppend(Outside, printed, again);
    MarkerOpens(doc);
    MoveAppend(Outside, printed + again, Marker(doc));
  }

  lemma {:induction false} HiddenLines(st: Style, level: int, doc: bool, lines: seq<string>, n: nat)
    requires st.nl == "\n" && '/' !in st.indentStr && Hidden(st, level, doc, lines) && n <= |lines|
    ensures forall i :: 0 <= i < n ==> BlankOnceEnded(lines[i])
  {
    if n > 0 {
      HiddenLines(st, level, doc, lines, n - 1);
      var before, line := UpTo(st, level, doc, lines, n - 1), lines[n - 1];
      LineOpened(st, level, doc, lines, n - 1);
      forall k | 0 <= k < |line| && ReadAsCode(MoveAll(InLine, line[..k]), line[k]) ensures Blank(line[k]) {
        MoveAppend(Outside, before, line[..k]);
        assert Shown(st, level, doc, lines, n - 1, k);
      }
      LineHidesIff(line);
    }
  }

  /** Exactly when a printed line comment hides its description from Solidity: every line of the description is blank
      from its first line terminator on. The description was split at newlines, so this leaves room for nothing but
      carriage returns, spaces and tabs at the end of a line, as Windows line ends leave them. */
  lemma {:induction false} HiddenIff(st: Style, level: int, doc: bool, s: string)
    requires st.nl == "\n" && '/' !in st.indentStr
    ensures Hidden(st, level, doc, DescriptionLines(s)) <==> forall l :: l in DescriptionLines(s) ==> BlankOnceEnded(l)
  {
    var lines := DescriptionLines(s);
    if forall l :: l in lines ==> BlankOnceEnded(l) {
      forall i, k | 0 <= i < |lines| && 0 <= k < |lines[i]| && Shown(st, level, doc, lines, i, k)
        ensures Blank(lines[i][k])
      {
        assert lines[i] in lines;
        LineOpened(st, level, doc, lines, i);
        MoveAppend(Outside, UpTo(st, level, doc, lines, i), lines[i][..k]);
        LineHidesIff(lines[i]);
      }
    }
    if Hidden(st, level, doc, lines) { HiddenLines(st, level, doc, lines, |lines|); }
  }

  // ---------------------------------------------------------------- block comments

  predicate Inside(x: Lex) { x.InBlock? || x.AfterStar? }

  /** A star immediately followed by a slash. */
  predicate HasClose(s: string) { exists i :: 0 <= i < |s| - 1 && s[i] == '*' && s[i + 1] == '/' }

  lemma {:induction false} HasCloseAppend(a: string, b: string)
    ensures HasClose(a + b) <==>
            HasClose(a) || HasClose(b) || (a != [] && b != [] && a[|a| - 1] == '*' && b[0] == '/')
  {
    var s := a + b;
    if HasClose(a) {
      var i :| 0 <= i < |a| - 1 && a[i] == '*' && a[i + 1] == '/';
      assert s[i] == '*' && s[i + 1] == '/';
    }
    if HasClose(b) {
      var i :| 0 <= i < |b| - 1 && b[i] == '*' && b[i + 1] == '/';
      assert s[|a| + i] == '*' && s[|a| + i + 1] == '/';
    }
    if a != [] && b != [] && a[|a| - 1] == '*' && b[0] == '/' {
      assert s[|a| - 1] == '*' && s[|a| - 1 + 1] == '/';
    }
    if HasClose(s) {
      var i :| 0 <= i < |s| - 1 && s[i] == '*' && s[i + 1] == '/';
      if i + 1 < |a| {
        assert a[i] == '*' && a[i + 1] == '/';
      } else if i >= |a| {
        assert b[i - |a|] == '*' && b[i - |a| + 1] == '/';
      }
    }
  }

  lemma {:induction false} NoSlashNoClose(s: string)
    requires '/' !in s
    ensures !HasClose(s)
  {
    forall i | 0 <= i < |s| ensures s[i] != '/' { assert s[i] in s; }
  }

  lemma {:induction false} StaysInBlock(s: string, k: nat)
    requires !HasClose(s) && k <= |s|
    ensures Inside(MoveAll(InBlock, s[..k]))
    ensures MoveAll(InBlock, s[..k]) == AfterStar <==> k > 0 && s[k - 1] == '*'
  {
    if k > 0 {
      StaysInBlock(s, k - 1);
      MoveOne(InBlock, s, k - 1);
      assert k > 1 ==> !(s[k - 2] == '*' && s[k - 2 + 1] == '/');
    }
  }

  /** Inside a block comment, the reader stays there exactly through text that holds no closing mark. */
  lemma {:induction false} BlockHidesIff(s: string)
    ensures (forall k :: 0 <= k <= |s| ==> Inside(MoveAll(InBlock, s[..k]))) <==> !HasClose(s)
  {
    if HasClose(s) {
      var i :| 0 <= i < |s| - 1 && s[i] == '*' && s[i + 1] == '/';
      MoveOne(InBlock, s, i);
      MoveOne(InBlock, s, i + 1);
      assert Inside(MoveAll(InBlock, s[..i])) ==> MoveAll(InBlock, s[..i + 1]) == AfterStar;
      assert !Inside(MoveAll(InBlock, s[..i])) || !Inside(MoveAll(InBlock, s[..i + 2]));
    } else {
      forall k | 0 <= k <= |s| ensures Inside(MoveAll(InBlock, s[..k])) { StaysInBlock(s, k); }
    }
  }

  /** The reader enters a comment with the first two characters, leaves it with the last but one, and is inside it
      everywhere between. */
  ghost predicate ClosesOnlyAtItsEnd(text: string) {
    && |text| >= 3
    && (forall k :: 2 <= k < |text| - 1 ==> Inside(MoveAll(Outside, text[..k])))
    && MoveAll(Outside, text[..|text| - 1]) == Outside
  }

  /** What stands between the opening mark and the final slash. */
  function BlockInner(st: Style, level: int, doc: bool, lines: seq<string>): string {
    (if doc then "*" else "") + "\n" + BlockBody(st, level, doc, lines, |lines|) + (Indent(st, level) + " *")
  }

  lemma {:induction false} OpensBlock()
    ensures MoveAll(Outside, "/*") == InBlock
  {
    assert "/*"[..1] == "/" && "/"[..0] == "";
  }

  lemma {:induction false} ClosesIff(inner: string)
    requires inner != [] && inner[|inner| - 1] == '*'
    ensures ClosesOnlyAtItsEnd("/*" + inner + "/" + "\n") <==> !HasClose(inner)
  {
    var text := "/*" + inner + "/" + "\n";
    OpensBlock();
    forall k | 0 <= k <= |inner|
      ensures text[..2 + k] == "/*" + inner[..k] && MoveAll(Outside, text[..2 + k]) == MoveAll(InBlock, inner[..k])
    {
      MoveAppend(Outside, "/*", inner[..k]);
    }
    BlockHidesIff(inner);
    if HasClose(inner) {
      var k :| 0 <= k <= |inner| && !Inside(MoveAll(InBlock, inner[..k]));
      assert !Inside(MoveAll(Outside, text[..2 + k]));
    } else {
      forall j | 2 <= j < |text| - 1 ensures Inside(MoveAll(Outside, text[..j])) {
        assert Inside(MoveAll(InBlock, inner[..j - 2]));
        assert text[..2 + (j - 2)] == text[..j];
      }
      StaysInBlock(inner, |inner|);
      MoveOne(Outside, text, |inner| + 2);
    }
  }

  lemma {:induction false} BlockLineClose(st: Style, level: int, doc: bool, line: string)
    requires st.nl == "\n" && '/' !in st.indentStr
    ensures HasClose(BlockLine(st, level, doc, line)) <==> HasClose(line)
  {
    var front := Indent(st, level) + " " + (if doc then "* " else "");
    IndentStaysText(st, level);
    NoSlashNoClose(front);
    assert front[|front| - 1] == ' ';
    HasCloseAppend(front, line);
    NoSlashNoClose("\n");
    HasCloseAppend(front + line, "\n");
  }

  lemma {:induction false} BlockBodyClose(st: Style, level: int, doc: bool, lines: seq<string>, n: nat)
    requires st.nl == "\n" && '/' !in st.indentStr && n <= |lines|
    ensures HasClose(BlockBody(st, level, doc, lines, n)) <==> exists i :: 0 <= i < n && HasClose(lines[i])
    ensures n > 0 ==> var body := BlockBody(st, level, doc, lines, n); body != [] && body[|body| - 1] == '\n'
    decreases n
  {
    if n > 0 {
      BlockBodyClose(st, level, doc, lines, n - 1);
      BlockLineClose(st, level, doc, lines[n - 1]);
      HasCloseAppend(BlockBody(st, level, doc, lines, n - 1), BlockLine(st, level, doc, lines[n - 1]));
      assert HasClose(lines[n - 1]) ==> exists i :: 0 <= i < n && HasClose(lines[i]);
    }
  }

  lemma {:induction false} InnerClose(st: Style, level: int, doc: bool, lines: seq<string>)
    requires st.nl == "\n" && '/' !in st.indentStr
    ensures HasClose(BlockInner(st, level, doc, lines)) <==> exists l :: l in lines && HasClose(l)
  {
    var open, body, end := (if doc then "*" else "") + "\n", BlockBody(st, level, doc, lines, |lines|),
      Indent(st, level) + " *";
    IndentStaysText(st, level);
    BlockBodyClose(st, level, doc, lines, |lines|);
    NoSlashNoClose(open);
    NoSlashNoClose(end);
    HasCloseAppend(open, body);
    HasCloseAppend(open + body, end);
  }

  lemma {:induction false} BlockText(st: Style, level: int, doc: bool, lines: seq<string>)
    requires st.nl == "\n"
    ensures BlockComment(st, level, doc, lines) == "/*" + BlockInner(st, level, doc, lines) + "/" + "\n"
  {
    assert BlockOpen(doc) == "/*" + (if doc then "*" else "");
    assert Line(st, level, " */") == Indent(st, level) + " *" + "/" + "\n";
  }

  /** Exactly when a printed block comment closes at its own end and nowhere before: no line of the description
      contains a closing mark. */
  lemma {:induction false} BlockClosesIff(st: Style, level: int, doc: bool, s: string)
    requires st.nl == "\n" && '/' !in st.indentStr
    ensures ClosesOnlyAtItsEnd(BlockComment(st, level, doc, DescriptionLines(s)))
            <==> forall l :: l in DescriptionLines(s) ==> !HasClose(l)
  {
    var lines := DescriptionLines(s);
    BlockText(st, level, doc, lines);
    InnerClose(st, level, doc, lines);
    ClosesIff(BlockInner(st, level, doc, lines));
  }
}
