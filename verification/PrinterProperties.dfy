/** What the printed text keeps: descriptions stay inside their comments, and braces nest. */
module PrinterProperties {
  import opened Printer
  import opened SolidityReader
  import Cheatcodes

  // ---------------------------------------------------------------- comments contain their description

  /** The settings `main` prints with, as far as comments go. */
  predicate LineStyle(st: Style) { !st.block && st.nl == "\n" && '\n' !in st.indentStr }

  lemma {:induction false} SplitFirstLine(a: string, b: string)
    requires '\n' !in a
    ensures Split(a + ("\n" + b)) == [a] + Split(b)
    decreases |a|
  {
    var whole := a + ("\n" + b);
    if a == [] {
      assert whole == "\n" + b && whole[1..] == b;
    } else {
      assert whole[1..] == a[1..] + ("\n" + b) && whole[0] == a[0];
      assert '\n' !in a[1..];
      SplitFirstLine(a[1..], b);
      assert [a[0]] + a[1..] == a;
    }
  }

  /** Going on with text free of newlines, then a newline: the last line is completed and an empty one begins. */
  lemma {:induction false} SplitMore(a: string, b: string)
    requires '\n' !in b
    ensures Split(a + (b + "\n")) == Split(a)[..|Split(a)| - 1] + [Split(a)[|Split(a)| - 1] + b, ""]
    decreases |a|
  {
    if a == [] {
      assert a + (b + "\n") == b + ("\n" + "");
      SplitFirstLine(b, "");
      assert [] + b == b;
    } else {
      var whole := a + (b + "\n");
      assert whole[1..] == a[1..] + (b + "\n") && whole[0] == a[0];
      SplitMore(a[1..], b);
      SplitMoreHead(a[0], Split(a[1..]), b);
    }
  }

  lemma SplitMoreHead(c: char, rest: seq<string>, b: string)
    requires rest != []
    ensures var more := rest[..|rest| - 1] + [rest[|rest| - 1] + b, ""];
            var lines := [[c] + rest[0]] + rest[1..];
            && [[]] + more == ([[]] + rest)[..|rest|] + [([[]] + rest)[|rest|] + b, ""]
            && [[c] + more[0]] + more[1..] == lines[..|lines| - 1] + [lines[|lines| - 1] + b, ""]
  {
    if |rest| == 1 {
      assert [c] + (rest[0] + b) == ([c] + rest[0]) + b;
    }
  }

  lemma {:induction false} IndentHasNoNewline(st: Style, level: int)
    requires '\n' !in st.indentStr
    ensures '\n' !in Indent(st, level)
  {
    if level > 0 { IndentHasNoNewline(st, level - 1); }
  }

  /** A description's lines as printed: each behind the indentation and the marker. */
  function MarkedLines(st: Style, level: int, doc: bool, lines: seq<string>): seq<string> {
    seq(|lines|, i requires 0 <= i < |lines| => Indent(st, level) + Marker(doc) + lines[i])
  }

  /** The text printed so far ends a line: one more comment line adds exactly that line. */
  lemma NextCommentLine(st: Style, level: int, doc: bool, before: string, done: seq<string>, line: string)
    requires LineStyle(st) && '\n' !in line && Split(before) == done + [""]
    ensures Split(before + CommentLine(st, level, false, doc, line))
            == done + [Indent(st, level) + Marker(doc) + line, ""]
  {
    IndentHasNoNewline(st, level);
    var added := Indent(st, level) + Marker(doc) + line;
    SplitMore(before, added);
    assert "" + added == added;
  }

  lemma FirstCommentLine(st: Style, level: int, doc: bool, lines: seq<string>)
    requires LineStyle(st) && lines != [] && '\n' !in lines[0]
    ensures Split(Indent(st, level) + LineComment(st, level, doc, lines, 1))
            == MarkedLines(st, level, doc, lines)[..1] + [""]
  {
    IndentHasNoNewline(st, level);
    var marked := Indent(st, level) + Marker(doc) + lines[0];
    assert LineComment(st, level, doc, lines, 0) == "";
    assert LineComment(st, level, doc, lines, 1) == CommentLine(st, level, true, doc, lines[0]);
    assert Indent(st, level) + CommentLine(st, level, true, doc, lines[0]) == marked + ("\n" + "");
    SplitFirstLine(marked, "");
    assert MarkedLines(st, level, doc, lines)[..1] == [marked];
  }

  lemma {:induction false} LineCommentSplits(st: Style, level: int, doc: bool, lines: seq<string>, n: nat)
    requires LineStyle(st) && 0 < n <= |lines| && forall i :: 0 <= i < |lines| ==> '\n' !in lines[i]
    ensures Split(Indent(st, level) + LineComment(st, level, doc, lines, n))
            == MarkedLines(st, level, doc, lines)[..n] + [""]
    decreases n
  {
    var ind := Indent(st, level);
    var marked := MarkedLines(st, level, doc, lines);
    if n == 1 {
      FirstCommentLine(st, level, doc, lines);
    } else {
      LineCommentSplits(st, level, doc, lines, n - 1);
      var before := ind + LineComment(st, level, doc, lines, n - 1);
      NextCommentLine(st, level, doc, before, marked[..n - 1], lines[n - 1]);
      assert marked[..n] + [""] == marked[..n - 1] + [marked[n - 1], ""];
      Assoc(ind, LineComment(st, level, doc, lines, n - 1), CommentLine(st, level, false, doc, lines[n - 1]));
    }
  }

  lemma {:induction false} SplitWhole(s: string)
    requires '\n' !in s
    ensures Split(s) == [s]
  {
    if s != [] {
      SplitWhole(s[1..]);
      assert [s[0]] + s[1..] == s;
    }
  }

  lemma {:induction false} LStripKeepsOut(s: string, c: char)
    requires c !in s
    ensures c !in LStrip(s)
  {
  }

  /** In line style every newline-delimited line of a printed comment is the indentation, the marker, and one
      left-stripped line of the stripped description, whatever the description contains. Every caller prints an
      indentation right before the comment. */
  lemma CommentIsContained(st: Style, level: int, s: string, doc: bool)
    requires LineStyle(st) && Strip(s) != ""
    ensures Split(Indent(st, level) + CommentText(st, level, s, doc))
            == MarkedLines(st, level, doc, DescriptionLines(s)) + [""]
  {
    var lines := DescriptionLines(s);
    forall i | 0 <= i < |lines| ensures '\n' !in lines[i] {
      LStripKeepsOut(Split(Strip(s))[i], '\n');
    }
    LineCommentSplits(st, level, doc, lines, |lines|);
    var marked := MarkedLines(st, level, doc, lines);
    assert marked[..|lines|] == marked;
  }

  /** What a reader of the file recovers: each line but the last, without its indentation and marker. */
  function Uncomment(st: Style, level: int, doc: bool, text: string): seq<string> {
    var lines := Split(text);
    var k := |Indent(st, level)| + |Marker(doc)|;
    seq(|lines| - 1, i requires 0 <= i < |lines| - 1 => if k <= |lines[i]| then lines[i][k..] else [])
  }

  /** Round trip: removing indentation and markers gives back the left-stripped lines of the stripped description. */
  lemma CommentRoundTrip(st: Style, level: int, s: string, doc: bool)
    requires LineStyle(st) && Strip(s) != ""
    ensures Uncomment(st, level, doc, Indent(st, level) + CommentText(st, level, s, doc)) == DescriptionLines(s)
  {
    CommentIsContained(st, level, s, doc);
    var lines := DescriptionLines(s);
    var got := Uncomment(st, level, doc, Indent(st, level) + CommentText(st, level, s, doc));
    forall i | 0 <= i < |lines| ensures got[i] == lines[i] {
      var l := Indent(st, level) + Marker(doc) + lines[i];
      assert l[|Indent(st, level)| + |Marker(doc)|..] == lines[i];
    }
  }

  // ---------------------------------------------------------------- braces

  /** `Plain` reads every brace; `Code` skips comments, as Solidity does. */
  datatype Mode = Plain | Code

  /** A reader of the text: how deep in braces, and where between comments and code. */
  datatype Reader = Broken | At(depth: nat, lex: Lex)

  function Start(depth: nat): Reader { At(depth, Outside) }

  function Feed(m: Mode, r: Reader, c: char): Reader {
    if r.Broken? then Broken
    else
      var next := if m.Plain? then r.lex else Move(r.lex, c);
      if m.Code? && (r.lex.InLine? || Inside(r.lex)) then At(r.depth, next)
      else if c == '{' then At(r.depth + 1, next)
      else if c == '}' then (if r.depth == 0 then Broken else At(r.depth - 1, next))
      else At(r.depth, next)
  }

  function FeedAll(m: Mode, r: Reader, s: string): Reader
    decreases |s|
  {
    if s == [] then r else FeedAll(m, Feed(m, r, s[0]), s[1..])
  }

  lemma {:induction false} FeedAppend(m: Mode, r: Reader, a: string, b: string)
    ensures FeedAll(m, r, a + b) == FeedAll(m, FeedAll(m, r, a), b)
    decreases |a|
  {
    if a == [] {
      assert a + b == b;
    } else {
      assert (a + b)[1..] == a[1..] + b && (a + b)[0] == a[0];
      FeedAppend(m, Feed(m, r, a[0]), a[1..], b);
    }
  }

  /** Reading `s` at any depth never closes more than it opened, and ends at that depth, in code. */
  ghost predicate Balanced(m: Mode, s: string) {
    forall d: nat :: FeedAll(m, Start(d), s) == Start(d)
  }

  lemma BalancedAppend(m: Mode, a: string, b: string)
    requires Balanced(m, a) && Balanced(m, b)
    ensures Balanced(m, a + b)
  {
    forall d: nat ensures FeedAll(m, Start(d), a + b) == Start(d) {
      FeedAppend(m, Start(d), a, b);
      assert FeedAll(m, Start(d), a) == Start(d);
      assert FeedAll(m, Start(d), b) == Start(d);
    }
  }

  lemma BalancedEmpty(m: Mode)
    ensures Balanced(m, "")
  {
  }

  /** No braces and, where comments and string literals matter, nothing that could begin one. */
  predicate Quiet(m: Mode, s: string) {
    '{' !in s && '}' !in s && (m.Code? ==> '/' !in s && '"' !in s && '\'' !in s)
  }

  lemma {:induction false} QuietIsBalanced(m: Mode, s: string)
    requires Quiet(m, s)
    ensures Balanced(m, s)
  {
    forall d: nat ensures FeedAll(m, Start(d), s) == Start(d) { QuietFrom(m, s, d); }
  }

  lemma {:induction false} QuietFrom(m: Mode, s: string, d: nat)
    requires Quiet(m, s)
    ensures FeedAll(m, Start(d), s) == Start(d)
  {
    if s != [] {
      assert s[0] in s;
      assert Quiet(m, s[1..]);
      QuietFrom(m, s[1..], d);
    }
  }

  /** `text {`: one level deeper. */
  lemma OpensOne(m: Mode, before: string, after: string, d: nat)
    requires Balanced(m, before) && Balanced(m, after)
    ensures FeedAll(m, Start(d), before + "{" + after) == Start(d + 1)
  {
    FeedAppend(m, Start(d), before + "{", after);
    FeedAppend(m, Start(d), before, "{");
    assert FeedAll(m, Start(d), before) == Start(d);
    assert "{"[1..] == "";
    assert FeedAll(m, Start(d), "{") == FeedAll(m, Feed(m, Start(d), '{'), "");
    assert FeedAll(m, Start(d + 1), after) == Start(d + 1);
  }

  lemma ClosesOne(m: Mode, before: string, after: string, d: nat)
    requires Balanced(m, before) && Balanced(m, after)
    ensures FeedAll(m, Start(d + 1), before + "}" + after) == Start(d)
  {
    FeedAppend(m, Start(d + 1), before + "}", after);
    FeedAppend(m, Start(d + 1), before, "}");
    assert FeedAll(m, Start(d + 1), before) == Start(d + 1);
    assert "}"[1..] == "";
    assert FeedAll(m, Start(d + 1), "}") == FeedAll(m, Feed(m, Start(d + 1), '}'), "");
    assert FeedAll(m, Start(d), after) == Start(d);
  }

  /** Opening text, balanced text, closing text. */
  lemma Enclosed(m: Mode, open: string, body: string, close: string)
    requires forall d: nat :: FeedAll(m, Start(d), open) == Start(d + 1)
    requires Balanced(m, body)
    requires forall d: nat :: FeedAll(m, Start(d + 1), close) == Start(d)
    ensures Balanced(m, open + body + close)
  {
    forall d: nat ensures FeedAll(m, Start(d), open + body + close) == Start(d) {
      FeedAppend(m, Start(d), open + body, close);
      FeedAppend(m, Start(d), open, body);
      assert FeedAll(m, Start(d), open) == Start(d + 1);
      assert FeedAll(m, Start(d + 1), body) == Start(d + 1);
      assert FeedAll(m, Start(d + 1), close) == Start(d);
    }
  }

  // ---------------------------------------------------------------- one comment

  /** Comments and white space do not count. */
  lemma {:induction false} SkipsComment(d: nat, x: Lex, s: string)
    requires forall k :: 0 <= k < |s| ==> !ReadAsCode(MoveAll(x, s[..k]), s[k]) || Blank(s[k])
    ensures FeedAll(Code, At(d, x), s) == At(d, MoveAll(x, s))
    decreases |s|
  {
    if s != [] {
      var n := |s| - 1;
      var front := s[..n];
      forall k | 0 <= k < |front| ensures !ReadAsCode(MoveAll(x, front[..k]), front[k]) || Blank(front[k]) {
        assert front[..k] == s[..k];
      }
      SkipsComment(d, x, front);
      FeedAppend(Code, At(d, x), front, [s[n]]);
      assert front + [s[n]] == s;
      FeedOne(Code, At(d, MoveAll(x, front)), [s[n]]);
    }
  }

  lemma FeedTwo(r: Reader, s: string)
    requires |s| == 2
    ensures FeedAll(Code, r, s) == Feed(Code, Feed(Code, r, s[0]), s[1])
  {
    assert s[1..][1..] == [] && s[1..][0] == s[1];
    assert FeedAll(Code, Feed(Code, r, s[0]), s[1..]) == FeedAll(Code, Feed(Code, Feed(Code, r, s[0]), s[1]), []);
  }

  lemma FeedOne(m: Mode, r: Reader, s: string)
    requires |s| == 1
    ensures FeedAll(m, r, s) == Feed(m, r, s[0])
  {
    assert s[1..] == [];
    assert FeedAll(m, Feed(m, r, s[0]), []) == Feed(m, r, s[0]);
  }

  /** Two slashes and text that shows nothing, then a newline: nothing in it counts. */
  lemma SlashedLineIsBalanced(s: string)
    requires BlankOnceEnded(s)
    ensures Balanced(Code, "//" + s + "\n")
  {
    forall d: nat ensures FeedAll(Code, Start(d), "//" + s + "\n") == Start(d) {
      FeedAppend(Code, Start(d), "//" + s, "\n");
      FeedAppend(Code, Start(d), "//", s);
      FeedTwo(Start(d), "//");
      LineHidesIff(s);
      SkipsComment(d, InLine, s);
      InLineOrOutside(s);
      FeedOne(Code, At(d, MoveAll(InLine, s)), "\n");
    }
  }

  /** A block comment that closes only at its end: nothing in it counts. */
  lemma ClosedBlockIsBalanced(text: string)
    requires ClosesOnlyAtItsEnd(text) && text[..2] == "/*" && text[|text| - 1] == '\n'
    ensures Balanced(Code, text)
  {
    var inner, n := text[2..|text| - 1], |text| - 1;
    OpensBlock();
    assert text[..n] == "/*" + inner && text == "/*" + inner + "\n";
    forall k | 0 <= k <= |inner| ensures MoveAll(InBlock, inner[..k]) == MoveAll(Outside, text[..2 + k]) {
      MoveAppend(Outside, "/*", inner[..k]);
      assert "/*" + inner[..k] == text[..2 + k];
    }
    assert inner[..|inner|] == inner;
    forall d: nat ensures FeedAll(Code, Start(d), text) == Start(d) {
      FeedAppend(Code, Start(d), "/*" + inner, "\n");
      FeedAppend(Code, Start(d), "/*", inner);
      FeedTwo(Start(d), "/*");
      SkipsComment(d, InBlock, inner);
      FeedOne(Code, Start(d), "\n");
    }
  }

  /** What the settings must satisfy: quiet indentation and line ends. */
  predicate StyleOk(m: Mode, st: Style) {
    && Quiet(m, st.indentStr) && Quiet(m, st.nl)
    && (m.Code? ==> st.nl == "\n")
  }

  /** In `Code` a description may contain anything that its comment hides; in `Plain` it must be free of braces. */
  predicate DescriptionOk(m: Mode, st: Style, s: string) {
    if m.Plain? then Quiet(Plain, s)
    else forall l :: l in DescriptionLines(s) ==> if st.block then !HasClose(l) else BlankOnceEnded(l)
  }

  /** A declaration is quiet, or is itself a comment that shows nothing, as a group header is. */
  predicate DeclarationOk(m: Mode, s: string) {
    Quiet(m, s) || (m.Code? && |s| >= 2 && s[0] == '/' && s[1] == '/' && BlankOnceEnded(s))
  }

  lemma {:induction false} IndentIsQuiet(m: Mode, st: Style, level: int)
    requires StyleOk(m, st)
    ensures Quiet(m, Indent(st, level))
  {
    if level > 0 { IndentIsQuiet(m, st, level - 1); }
  }

  lemma IndentBalanced(m: Mode, st: Style, level: int)
    requires StyleOk(m, st)
    ensures Balanced(m, Indent(st, level))
  {
    IndentIsQuiet(m, st, level);
    QuietIsBalanced(m, Indent(st, level));
  }

  lemma DeclarationLineBalanced(m: Mode, st: Style, level: int, s: string)
    requires StyleOk(m, st) && DeclarationOk(m, s)
    ensures Balanced(m, Line(st, level, s))
  {
    IndentBalanced(m, st, level);
    if Quiet(m, s) {
      QuietIsBalanced(m, s);
      QuietIsBalanced(m, st.nl);
      BalancedAppend(m, Indent(st, level), s);
      BalancedAppend(m, Indent(st, level) + s, st.nl);
    } else {
      assert s == "//" + s[2..];
      var t := s[2..];
      forall k, j | 0 <= k <= j < |t| && LineEnd(t[k]) ensures Blank(t[j]) {
        assert LineEnd(s[k + 2]) && t[j] == s[j + 2];
      }
      SlashedLineIsBalanced(s[2..]);
      BalancedAppend(m, Indent(st, level), s + st.nl);
      assert Indent(st, level) + (s + st.nl) == Line(st, level, s);
    }
  }

  /** Surrounding balanced text with an indentation and a line end. */
  lemma LineBalanced(m: Mode, st: Style, level: int, body: string)
    requires StyleOk(m, st) && Balanced(m, body)
    ensures Balanced(m, Line(st, level, body))
  {
    IndentBalanced(m, st, level);
    QuietIsBalanced(m, st.nl);
    BalancedAppend(m, Indent(st, level), body);
    BalancedAppend(m, Indent(st, level) + body, st.nl);
  }

  lemma CommentLineBalanced(m: Mode, st: Style, level: int, first: bool, doc: bool, line: string)
    requires StyleOk(m, st) && (if m.Plain? then Quiet(Plain, line) else BlankOnceEnded(line))
    ensures Balanced(m, CommentLine(st, level, first, doc, line))
  {
    var ind := if first then "" else Indent(st, level);
    IndentBalanced(m, st, level);
    BalancedEmpty(m);
    var rest := Marker(doc) + line + st.nl;
    assert CommentLine(st, level, first, doc, line) == ind + rest;
    if m.Plain? {
      QuietIsBalanced(m, Marker(doc));
      QuietIsBalanced(m, line);
      QuietIsBalanced(m, st.nl);
      BalancedAppend(m, Marker(doc), line);
      BalancedAppend(m, Marker(doc) + line, st.nl);
    } else {
      var tail := (if doc then "/ " else " ") + line;
      assert rest == "//" + tail + "\n";
      OneLineIsHidden(if doc then "/ " else " ", line);
      SlashedLineIsBalanced(tail);
    }
    BalancedAppend(m, ind, rest);
  }

  /** The lines of a description, one by one. */
  lemma LinesOk(m: Mode, st: Style, s: string, i: nat)
    requires DescriptionOk(m, st, s) && i < |DescriptionLines(s)|
    ensures if m.Plain? then Quiet(Plain, DescriptionLines(s)[i])
            else if st.block then !HasClose(DescriptionLines(s)[i])
            else BlankOnceEnded(DescriptionLines(s)[i])
  {
    assert DescriptionLines(s)[i] in DescriptionLines(s);
    SplitKeepsOut(Strip(s), '{', i);
    SplitKeepsOut(Strip(s), '}', i);
  }

  lemma {:induction false} SplitKeepsOut(s: string, c: char, i: nat)
    requires i < |Split(s)|
    ensures c !in s ==> c !in Split(s)[i]
    decreases |s|
  {
    if s != [] && c !in s {
      assert c !in s[1..] && s[0] in s;
      if s[0] == '\n' {
        if i > 0 { SplitKeepsOut(s[1..], c, i - 1); }
      } else {
        SplitKeepsOut(s[1..], c, i);
      }
    }
  }

  lemma {:induction false} LineCommentBalanced(m: Mode, st: Style, level: int, s: string, doc: bool, n: nat)
    requires StyleOk(m, st) && DescriptionOk(m, st, s) && n <= |DescriptionLines(s)| && (m.Code? ==> !st.block)
    ensures Balanced(m, LineComment(st, level, doc, DescriptionLines(s), n))
    decreases n
  {
    if n == 0 {
      BalancedEmpty(m);
    } else {
      var lines := DescriptionLines(s);
      LineCommentBalanced(m, st, level, s, doc, n - 1);
      LinesOk(m, st, s, n - 1);
      CommentLineBalanced(m, st, level, n == 1, doc, lines[n - 1]);
      BalancedAppend(m, LineComment(st, level, doc, lines, n - 1), CommentLine(st, level, n == 1, doc, lines[n - 1]));
    }
  }

  lemma {:induction false} BlockBodyQuiet(st: Style, level: int, s: string, doc: bool, n: nat)
    requires StyleOk(Plain, st) && DescriptionOk(Plain, st, s) && n <= |DescriptionLines(s)|
    ensures Quiet(Plain, BlockBody(st, level, doc, DescriptionLines(s), n))
    decreases n
  {
    if n > 0 {
      BlockBodyQuiet(st, level, s, doc, n - 1);
      LinesOk(Plain, st, s, n - 1);
      IndentIsQuiet(Plain, st, level);
      assert Quiet(Plain, BlockLine(st, level, doc, DescriptionLines(s)[n - 1]));
    }
  }

  lemma PlainBlockBalanced(st: Style, level: int, s: string, doc: bool)
    requires StyleOk(Plain, st) && DescriptionOk(Plain, st, s)
    ensures Balanced(Plain, BlockComment(st, level, doc, DescriptionLines(s)))
  {
    BlockBodyQuiet(st, level, s, doc, |DescriptionLines(s)|);
    IndentIsQuiet(Plain, st, level);
    assert Quiet(Plain, BlockOpen(doc));
    assert Quiet(Plain, Line(st, level, " */"));
    QuietIsBalanced(Plain, BlockComment(st, level, doc, DescriptionLines(s)));
  }

  lemma CodeBlockBalanced(st: Style, level: int, s: string, doc: bool)
    requires StyleOk(Code, st) && st.block && DescriptionOk(Code, st, s)
    ensures Balanced(Code, BlockComment(st, level, doc, DescriptionLines(s)))
  {
    var text := BlockComment(st, level, doc, DescriptionLines(s));
    BlockClosesIff(st, level, doc, s);
    BlockText(st, level, doc, DescriptionLines(s));
    assert text[..2] == "/*" && text[|text| - 1] == '\n';
    ClosedBlockIsBalanced(text);
  }

  lemma CommentBalanced(m: Mode, st: Style, level: int, s: string, doc: bool)
    requires StyleOk(m, st) && DescriptionOk(m, st, s)
    ensures Balanced(m, CommentText(st, level, s, doc))
  {
    if Strip(s) == "" {
      BalancedEmpty(m);
    } else if !st.block {
      LineCommentBalanced(m, st, level, s, doc, |DescriptionLines(s)|);
    } else if m.Plain? {
      PlainBlockBalanced(st, level, s, doc);
    } else {
      CodeBlockBalanced(st, level, s, doc);
    }
  }

  // ---------------------------------------------------------------- members

  predicate DeclaredOk(m: Mode, st: Style, d: Declared) {
    DescriptionOk(m, st, d.description) && DeclarationOk(m, d.declaration)
  }

  predicate VariantOk(m: Mode, st: Style, v: EnumVariant) { Quiet(m, v.name) && DescriptionOk(m, st, v.description) }

  predicate EnumOk(m: Mode, st: Style, e: Enum) {
    && Quiet(m, e.name) && DescriptionOk(m, st, e.description)
    && forall i :: 0 <= i < |e.variants| ==> VariantOk(m, st, e.variants[i])
  }

  predicate FieldOk(m: Mode, st: Style, f: StructField) {
    Quiet(m, f.name) && Quiet(m, f.ty) && DescriptionOk(m, st, f.description)
  }

  predicate StructOk(m: Mode, st: Style, s: Struct) {
    && Quiet(m, s.name) && DescriptionOk(m, st, s.description)
    && forall i :: 0 <= i < |s.fields| ==> FieldOk(m, st, s.fields[i])
  }

  predicate ContractOk(m: Mode, st: Style, c: Contract) {
    && (forall i :: 0 <= i < |c.errors| ==> DeclaredOk(m, st, c.errors[i]))
    && (forall i :: 0 <= i < |c.events| ==> DeclaredOk(m, st, c.events[i]))
    && (forall i :: 0 <= i < |c.functions| ==> DeclaredOk(m, st, c.functions[i]))
    && (forall i :: 0 <= i < |c.enums| ==> EnumOk(m, st, c.enums[i]))
    && (forall i :: 0 <= i < |c.structs| ==> StructOk(m, st, c.structs[i]))
  }

  lemma {:induction false} DeclaredTextsBalanced(m: Mode, st: Style, level: int, ds: seq<Declared>)
    requires StyleOk(m, st) && forall i :: 0 <= i < |ds| ==> DeclaredOk(m, st, ds[i])
    ensures Balanced(m, DeclaredTexts(st, level, ds))
  {
    if ds == [] {
      BalancedEmpty(m);
    } else {
      var front, d := ds[..|ds| - 1], ds[|ds| - 1];
      DeclaredTextsBalanced(m, st, level, front);
      assert DeclaredOk(m, st, d);
      CommentBalanced(m, st, level, d.description, true);
      DeclarationLineBalanced(m, st, level, d.declaration);
      BalancedAppend(m, CommentText(st, level, d.description, true), Line(st, level, d.declaration));
      LineBalanced(m, st, level, DeclaredText(st, level, d));
      BalancedAppend(m, DeclaredTexts(st, level, front), Line(st, level, DeclaredText(st, level, d)));
    }
  }

  lemma VariantBalanced(m: Mode, st: Style, level: int, v: EnumVariant, last: bool)
    requires StyleOk(m, st) && VariantOk(m, st, v)
    ensures Balanced(m, VariantText(st, level, v, last))
  {
    var ind, comment := Indent(st, level), CommentText(st, level, v.description, false);
    var tail := ind + v.name + (if last then "" else ",") + st.nl;
    IndentBalanced(m, st, level);
    CommentBalanced(m, st, level, v.description, false);
    BalancedAppend(m, ind, comment);
    IndentIsQuiet(m, st, level);
    QuietIsBalanced(m, tail);
    BalancedAppend(m, ind + comment, tail);
  }

  lemma {:induction false} VariantTextsBalanced(m: Mode, st: Style, level: int, vs: seq<EnumVariant>, n: nat)
    requires n <= |vs| && forall i :: 0 <= i < |vs| ==> Balanced(m, VariantText(st, level, vs[i], i == |vs| - 1))
    ensures Balanced(m, VariantTexts(st, level, vs, n))
    decreases n
  {
    if n == 0 {
      BalancedEmpty(m);
    } else {
      VariantTextsBalanced(m, st, level, vs, n - 1);
      BalancedAppend(m, VariantTexts(st, level, vs, n - 1), VariantText(st, level, vs[n - 1], n == |vs|));
    }
  }

  lemma AllVariantsBalanced(m: Mode, st: Style, level: int, vs: seq<EnumVariant>)
    requires StyleOk(m, st) && forall i :: 0 <= i < |vs| ==> VariantOk(m, st, vs[i])
    ensures Balanced(m, AllVariants(st, level, vs))
  {
    forall i | 0 <= i < |vs| ensures Balanced(m, VariantText(st, level, vs[i], i == |vs| - 1)) {
      assert VariantOk(m, st, vs[i]);
      VariantBalanced(m, st, level, vs[i], i == |vs| - 1);
    }
    VariantTextsBalanced(m, st, level, vs, |vs|);
  }

  lemma {:induction false} FieldTextsBalanced(m: Mode, st: Style, level: int, fs: seq<StructField>)
    requires StyleOk(m, st) && forall i :: 0 <= i < |fs| ==> FieldOk(m, st, fs[i])
    ensures Balanced(m, FieldTexts(st, level, fs))
  {
    if fs == [] {
      BalancedEmpty(m);
    } else {
      var front, f := fs[..|fs| - 1], fs[|fs| - 1];
      FieldTextsBalanced(m, st, level, front);
      var comment := CommentText(st, level, f.description, false);
      CommentBalanced(m, st, level, f.description, false);
      IndentBalanced(m, st, level);
      BalancedAppend(m, comment, Indent(st, level));
      QuietIsBalanced(m, FieldLine(f));
      BalancedAppend(m, comment + Indent(st, level), FieldLine(f));
      LineBalanced(m, st, level, FieldText(st, level, f));
      BalancedAppend(m, FieldTexts(st, level, front), Line(st, level, FieldText(st, level, f)));
    }
  }

  /** A block: comment, a line ending in an opening brace, a body, and a line holding the closing brace. */
  lemma BlockBalanced(m: Mode, st: Style, level: int, comment: string, head: string, body: string)
    requires StyleOk(m, st) && Balanced(m, comment) && Balanced(m, body) && Quiet(m, head)
    ensures Balanced(m, comment + Line(st, level, head + "{") + body + Line(st, level, "}"))
  {
    var ind := Indent(st, level);
    IndentIsQuiet(m, st, level);
    QuietIsBalanced(m, ind + head);
    QuietIsBalanced(m, ind);
    QuietIsBalanced(m, st.nl);
    var open, close := Line(st, level, head + "{"), Line(st, level, "}");
    forall d: nat ensures FeedAll(m, Start(d), open) == Start(d + 1) {
      assert open == (ind + head) + "{" + st.nl;
      OpensOne(m, ind + head, st.nl, d);
    }
    forall d: nat ensures FeedAll(m, Start(d + 1), close) == Start(d) {
      ClosesOne(m, ind, st.nl, d);
    }
    Enclosed(m, open, body, close);
    BalancedAppend(m, comment, open + body + close);
    assert comment + (open + body + close) == comment + open + body + close;
  }

  lemma {:induction false} EnumTextsBalanced(m: Mode, st: Style, level: int, es: seq<Enum>)
    requires StyleOk(m, st) && forall i :: 0 <= i < |es| ==> EnumOk(m, st, es[i])
    ensures Balanced(m, EnumTexts(st, level, es))
  {
    if es == [] {
      BalancedEmpty(m);
    } else {
      var front, e := es[..|es| - 1], es[|es| - 1];
      EnumTextsBalanced(m, st, level, front);
      EnumBalanced(m, st, level, e);
      LineBalanced(m, st, level, EnumText(st, level, e));
      BalancedAppend(m, EnumTexts(st, level, front), Line(st, level, EnumText(st, level, e)));
    }
  }

  lemma WordQuiet(m: Mode, word: string, name: string)
    requires word == "enum " || word == "struct "
    requires Quiet(m, name)
    ensures Quiet(m, word + name + " ")
  {
    QuietAppend(m, word, name);
    QuietAppend(m, word + name, " ");
  }

  lemma EnumBalanced(m: Mode, st: Style, level: int, e: Enum)
    requires StyleOk(m, st) && EnumOk(m, st, e)
    ensures Balanced(m, EnumText(st, level, e))
  {
    var comment, body := CommentText(st, level, e.description, true), AllVariants(st, level + 1, e.variants);
    assert Balanced(m, comment) by { CommentBalanced(m, st, level, e.description, true); }
    assert Balanced(m, body) by { AllVariantsBalanced(m, st, level + 1, e.variants); }
    WordQuiet(m, "enum ", e.name);
    assert EnumHead(e) == ("enum " + e.name + " ") + "{";
    BlockBalanced(m, st, level, comment, "enum " + e.name + " ", body);
  }

  lemma StructBalanced(m: Mode, st: Style, level: int, s: Struct)
    requires StyleOk(m, st) && StructOk(m, st, s)
    ensures Balanced(m, StructText(st, level, s))
  {
    var comment, body := CommentText(st, level, s.description, true), FieldTexts(st, level + 1, s.fields);
    assert Balanced(m, comment) by { CommentBalanced(m, st, level, s.description, true); }
    assert Balanced(m, body) by { FieldTextsBalanced(m, st, level + 1, s.fields); }
    WordQuiet(m, "struct ", s.name);
    assert StructHead(s) == ("struct " + s.name + " ") + "{";
    BlockBalanced(m, st, level, comment, "struct " + s.name + " ", body);
  }

  lemma {:induction false} StructTextsBalanced(m: Mode, st: Style, level: int, ss: seq<Struct>)
    requires StyleOk(m, st) && forall i :: 0 <= i < |ss| ==> StructOk(m, st, ss[i])
    ensures Balanced(m, StructTexts(st, level, ss))
  {
    if ss == [] {
      BalancedEmpty(m);
    } else {
      var front, s := ss[..|ss| - 1], ss[|ss| - 1];
      StructTextsBalanced(m, st, level, front);
      StructBalanced(m, st, level, s);
      LineBalanced(m, st, level, StructText(st, level, s));
      BalancedAppend(m, StructTexts(st, level, front), Line(st, level, StructText(st, level, s)));
    }
  }

  lemma ItemBalanced(m: Mode, st: Style, level: int, c: Contract, item: Item)
    requires StyleOk(m, st) && ContractOk(m, st, c)
    ensures Balanced(m, ItemText(st, level, c, item))
  {
    match item {
      case ErrorItem => DeclaredTextsBalanced(m, st, level, c.errors);
      case EventItem => DeclaredTextsBalanced(m, st, level, c.events);
      case EnumItem => EnumTextsBalanced(m, st, level, c.enums);
      case StructItem => StructTextsBalanced(m, st, level, c.structs);
      case FunctionItem => DeclaredTextsBalanced(m, st, level, c.functions);
    }
  }

  lemma {:induction false} ItemsBalanced(m: Mode, st: Style, level: int, c: Contract, order: seq<Item>)
    requires StyleOk(m, st) && ContractOk(m, st, c)
    ensures Balanced(m, ItemsText(st, level, c, order))
  {
    if order == [] {
      BalancedEmpty(m);
    } else {
      var front := order[..|order| - 1];
      ItemsBalanced(m, st, level, c, front);
      ItemBalanced(m, st, level, c, order[|order| - 1]);
      BalancedAppend(m, ItemsText(st, level, c, front), ItemText(st, level, c, order[|order| - 1]));
    }
  }

  predicate NamesOk(m: Mode, st: Style, name: string, inherits: string) {
    && Quiet(m, name) && Quiet(m, inherits) && Quiet(m, st.solidity)
    && (if m.Code? then BlankOnceEnded(st.spdx) else Quiet(Plain, st.spdx))
  }

  lemma LicenseBalanced(m: Mode, st: Style)
    requires StyleOk(m, st) && (if m.Code? then BlankOnceEnded(st.spdx) else Quiet(Plain, st.spdx))
    ensures Balanced(m, LicenseLine(st) + st.nl)
  {
    if m.Plain? {
      QuietIsBalanced(m, LicenseLine(st) + st.nl);
    } else {
      LicenseIsComment(st);
    }
  }

  const LICENSE_WORDS := " SPDX-License-Identifier: "

  lemma LicenseWords(st: Style)
    ensures OneLine(LICENSE_WORDS) && LicenseLine(st) == "//" + (LICENSE_WORDS + st.spdx)
  {
    assert "// SPDX-License-Identifier: " == "//" + LICENSE_WORDS;
  }

  lemma LicenseIsComment(st: Style)
    requires BlankOnceEnded(st.spdx) && st.nl == "\n"
    ensures Balanced(Code, LicenseLine(st) + st.nl)
  {
    LicenseWords(st);
    OneLineIsHidden(LICENSE_WORDS, st.spdx);
    SlashedLineIsBalanced(LICENSE_WORDS + st.spdx);
  }

  lemma QuietAppend(m: Mode, a: string, b: string)
    requires Quiet(m, a) && Quiet(m, b)
    ensures Quiet(m, a + b)
  {
  }

  lemma PragmaWordsQuiet(m: Mode)
    ensures Quiet(m, "pragma solidity ") && Quiet(m, ";")
  {
  }

  lemma DefaultVersionQuiet(m: Mode)
    ensures Quiet(m, ">=0.8.13 <0.9.0")
  {
  }

  lemma PragmaQuiet(m: Mode, st: Style)
    requires Quiet(m, st.solidity)
    ensures Quiet(m, PragmaLine(st))
  {
    var version := if st.solidity != "" then st.solidity else ">=0.8.13 <0.9.0";
    PragmaWordsQuiet(m);
    DefaultVersionQuiet(m);
    QuietAppend(m, "pragma solidity ", version);
    QuietAppend(m, "pragma solidity " + version, ";");
  }

  lemma PreludeBalanced(m: Mode, st: Style)
    requires StyleOk(m, st) && Quiet(m, st.solidity)
    requires if m.Code? then BlankOnceEnded(st.spdx) else Quiet(Plain, st.spdx)
    ensures Balanced(m, PreludeText(st))
  {
    LicenseBalanced(m, st);
    PragmaQuiet(m, st);
    QuietIsBalanced(m, st.nl);
    QuietIsBalanced(m, PragmaLine(st));
    BalancedAppend(m, LicenseLine(st) + st.nl, PragmaLine(st));
    BalancedAppend(m, LicenseLine(st) + st.nl + PragmaLine(st), st.nl);
    BalancedAppend(m, LicenseLine(st) + st.nl + PragmaLine(st) + st.nl, st.nl);
  }

  /** The braces of a printed contract are balanced and properly nested, through every nested print call. Reading
      every character (`Plain`), this holds when all member text is free of braces. Reading as Solidity does (`Code`),
      it holds in either documentation style as long as each description is one that its comment hides, and names and
      declarations are free of braces, slashes and quotes; a declaration may also be a one-line comment, as group
      headers are. */
  lemma ContractBalanced(m: Mode, st: Style, prelude: bool, level: int, c: Contract, name: string, inherits: string)
    requires StyleOk(m, st) && ContractOk(m, st, c) && NamesOk(m, st, name, inherits)
    ensures Balanced(m, ContractText(st, prelude, level, c, name, inherits))
  {
    var top := if prelude then PreludeText(st) else "";
    var open, body, close := OpenText(st, name, inherits), ItemsText(st, level + 1, c, st.order), CloseText(st);
    BalancedEmpty(m);
    PreludeBalanced(m, st);
    ItemsBalanced(m, st, level + 1, c, st.order);
    BodyBalanced(m, st, body, name, inherits);
    BalancedAppend(m, top, open + body + close);
    assert top + (open + body + close) == top + open + body + close;
  }

  lemma BodyBalanced(m: Mode, st: Style, body: string, name: string, inherits: string)
    requires StyleOk(m, st) && Balanced(m, body) && Quiet(m, name) && Quiet(m, inherits)
    ensures Balanced(m, OpenText(st, name, inherits) + body + CloseText(st))
  {
    HeadQuiet(m, name, inherits);
    QuietIsBalanced(m, HeadText(name, inherits));
    QuietIsBalanced(m, st.nl);
    BalancedEmpty(m);
    forall d: nat ensures FeedAll(m, Start(d), OpenText(st, name, inherits)) == Start(d + 1) {
      OpensOne(m, HeadText(name, inherits), st.nl, d);
    }
    forall d: nat ensures FeedAll(m, Start(d + 1), CloseText(st)) == Start(d) {
      assert CloseText(st) == "" + "}" + st.nl;
      ClosesOne(m, "", st.nl, d);
    }
    Enclosed(m, OpenText(st, name, inherits), body, CloseText(st));
  }

  lemma HeadQuiet(m: Mode, name: string, inherits: string)
    requires Quiet(m, name) && Quiet(m, inherits)
    ensures Quiet(m, HeadText(name, inherits))
  {
    assert Quiet(m, Strip(name));
    var named := if Strip(name) != "" then Strip(name) + " " else "";
    var bases := if inherits != "" then "is " + inherits + " " else "";
    QuietAppend(m, "interface ", named);
    QuietAppend(m, "interface " + named, bases);
  }

  // ---------------------------------------------------------------- descriptions that leave their comments

  lemma {:induction false} StaysBroken(s: string)
    ensures FeedAll(Code, Broken, s) == Broken
  {
    if s != [] { StaysBroken(s[1..]); }
  }

  lemma {:induction false} OneLineDescription(s: string)
    requires s != "" && '\n' !in s && !IsSpace(s[0]) && !IsSpace(s[|s| - 1])
    ensures Strip(s) == s && DescriptionLines(s) == [s]
  {
    SplitWhole(s);
  }

  lemma {:induction false} ReadsCarriageReturn()
    ensures FeedAll(Code, Start(0), "//" + "/ a" + "\r" + "}" + "\n") == Broken
  {
    FeedAppend(Code, Start(0), "//" + "/ a" + "\r" + "}", "\n");
    FeedAppend(Code, Start(0), "//" + "/ a" + "\r", "}");
    FeedAppend(Code, Start(0), "//" + "/ a", "\r");
    FeedAppend(Code, Start(0), "//", "/ a");
    FeedTwo(Start(0), "//");
    ReadsInLine("/ a");
    FeedOne(Code, At(0, InLine), "\r");
    FeedOne(Code, Start(0), "}");
    StaysBroken("\n");
  }

  lemma {:induction false} ReadsInLine(s: string)
    requires OneLine(s)
    ensures FeedAll(Code, At(0, InLine), s) == At(0, InLine)
  {
    forall k | 0 <= k < |s| ensures MoveAll(InLine, s[..k]) == InLine && s[k] in s { StaysInLine(s, k); }
    SkipsComment(0, InLine, s);
    StaysInLine(s, |s|);
    assert s[..|s|] == s;
  }

  /** The one-line description `a}` with a carriage return in the middle. */
  const CR_DESCRIPTION := "a\r}"

  lemma {:induction false} CarriageReturnText(st: Style)
    requires !st.block && st.nl == "\n"
    ensures DescriptionLines(CR_DESCRIPTION) == [CR_DESCRIPTION]
    ensures CommentText(st, 0, CR_DESCRIPTION, true) == "//" + "/ a" + "\r" + "}" + "\n"
  {
    var s := CR_DESCRIPTION;
    OneLineDescription(s);
    assert LineComment(st, 0, true, [s], 0) == "";
    assert LineComment(st, 0, true, [s], 1) == "" + CommentLine(st, 0, true, true, s);
    assert CommentLine(st, 0, true, true, s) == "" + "/// " + s + "\n";
  }

  /** In line style a carriage return inside a line of the description ends the comment: what follows it is code, and
      here it closes a brace that the comment never opened. */
  lemma {:induction false} CarriageReturnLeaks(st: Style)
    requires !st.block && st.nl == "\n" && '/' !in st.indentStr
    ensures !Hidden(st, 0, true, DescriptionLines(CR_DESCRIPTION))
    ensures !Balanced(Code, CommentText(st, 0, CR_DESCRIPTION, true))
  {
    HiddenIff(st, 0, true, CR_DESCRIPTION);
    CarriageReturnText(st);
    assert CR_DESCRIPTION in DescriptionLines(CR_DESCRIPTION);
    assert LineEnd(CR_DESCRIPTION[1]) && !Blank(CR_DESCRIPTION[2]);
    ReadsCarriageReturn();
  }

  /** A carriage return at the end of a line does no harm: a description with Windows line ends is hidden. */
  lemma {:induction false} WindowsLinesAreHidden(st: Style, level: int, doc: bool)
    requires st.nl == "\n" && '/' !in st.indentStr
    ensures DescriptionLines("a\r\nb") == ["a\r", "b"] && Hidden(st, level, doc, ["a\r", "b"])
  {
    var s := "a\r\nb";
    assert LStrip(s) == s && RStrip(s) == s;
    SplitFirstLine("a\r", "b");
    assert s == "a\r" + ("\n" + "b");
    SplitWhole("b");
    assert LStrip("a\r") == "a\r" && LStrip("b") == "b";
    assert DescriptionLines(s) == ["a\r", "b"];
    HiddenIff(st, level, doc, s);
  }

  lemma {:induction false} ReadsInBlock(inner: string)
    requires inner != [] && inner[|inner| - 1] == '*' && !HasClose(inner)
    ensures FeedAll(Code, At(0, InBlock), inner) == At(0, AfterStar)
  {
    forall k | 0 <= k < |inner| ensures Inside(MoveAll(InBlock, inner[..k])) { StaysInBlock(inner, k); }
    SkipsComment(0, InBlock, inner);
    StaysInBlock(inner, |inner|);
    assert inner[..|inner|] == inner;
  }

  lemma {:induction false} ReadsClosedBlock(inner: string)
    requires inner != [] && inner[|inner| - 1] == '*' && !HasClose(inner)
    ensures FeedAll(Code, Start(0), "/*" + inner + "/") == Start(0)
  {
    FeedAppend(Code, Start(0), "/*" + inner, "/");
    FeedAppend(Code, Start(0), "/*", inner);
    FeedTwo(Start(0), "/*");
    ReadsInBlock(inner);
    FeedOne(Code, At(0, AfterStar), "/");
  }

  lemma {:induction false} ReadsPastBlock(inner: string)
    requires inner != [] && inner[|inner| - 1] == '*' && !HasClose(inner)
    ensures FeedAll(Code, Start(0), "/*" + inner + "/" + "{" + "\n *" + "/\n") == Start(1)
  {
    FeedAppend(Code, Start(0), "/*" + inner + "/" + "{" + "\n *", "/\n");
    FeedAppend(Code, Start(0), "/*" + inner + "/" + "{", "\n *");
    FeedAppend(Code, Start(0), "/*" + inner + "/", "{");
    ReadsClosedBlock(inner);
    FeedOne(Code, Start(0), "{");
    QuietFrom(Code, "\n *", 1);
    FeedTwo(Start(1), "/\n");
  }

  /** A description that closes its comment and opens a brace. */
  const CLOSING_DESCRIPTION := "*/{"

  lemma {:induction false} ClosingText(st: Style)
    requires st.block && st.nl == "\n"
    ensures DescriptionLines(CLOSING_DESCRIPTION) == [CLOSING_DESCRIPTION]
    ensures CommentText(st, 0, CLOSING_DESCRIPTION, true) == "/*" + "*\n * *" + "/" + "{" + "\n *" + "/\n"
  {
    var s := CLOSING_DESCRIPTION;
    OneLineDescription(s);
    assert BlockBody(st, 0, true, [s], 0) == "";
    assert BlockBody(st, 0, true, [s], 1) == "" + BlockLine(st, 0, true, s);
    assert BlockLine(st, 0, true, s) == "" + " " + "* " + s + "\n";
    assert Line(st, 0, " */") == "" + " */" + "\n";
  }

  /** In block style a closing mark does it: the comment ends where the description says, and the brace after it is
      read as code. */
  lemma {:induction false} BlockCommentLeaks(st: Style)
    requires st.block && st.nl == "\n" && '/' !in st.indentStr
    ensures !ClosesOnlyAtItsEnd(CommentText(st, 0, CLOSING_DESCRIPTION, true))
    ensures !Balanced(Code, CommentText(st, 0, CLOSING_DESCRIPTION, true))
  {
    var s := CLOSING_DESCRIPTION;
    ClosingText(st);
    OneLineDescription(s);
    BlockClosesIff(st, 0, true, s);
    assert s in DescriptionLines(s) && s[0] == '*' && s[0 + 1] == '/';
    NoSlashNoClose("*\n * *");
    ReadsPastBlock("*\n * *");
    assert FeedAll(Code, Start(0), CommentText(st, 0, s, true)) != Start(0);
  }

  // ---------------------------------------------------------------- the generated interface

  /** What a cheatcode must satisfy: a description its comment hides, a declaration that is quiet, a group name on one
      line. */
  predicate CheatcodeOk(st: Style, c: Cheatcodes.Cheatcode) {
    && DescriptionOk(Code, st, c.func.description) && Quiet(Code, c.func.declaration)
    && c.group != "" && OneLine(c.group)
  }

  lemma {:induction false} EmptyDescriptionOk(st: Style)
    ensures DescriptionOk(Code, st, "")
  {
    assert DescriptionLines("") == [""];
  }

  lemma {:induction false} OutputEntries(cs: seq<Cheatcodes.Cheatcode>, seen: set<string>, i: nat) returns (m: nat)
    requires Cheatcodes.Named(cs) && i < |Cheatcodes.WithHeaders(cs, seen)|
    ensures m < |cs| && cs[m].group != ""
    ensures var e := Cheatcodes.WithHeaders(cs, seen)[i]; e == cs[m] || e == Cheatcodes.Header(cs[m])
    decreases |cs|
  {
    var known := cs[0].group in seen;
    var d := if known then 1 else 2;
    var seen' := if known then seen else seen + {cs[0].group};
    assert Cheatcodes.WithHeaders(cs, seen)[d..] == Cheatcodes.WithHeaders(cs[1..], seen');
    if i < d {
      m := 0;
    } else {
      m := OutputEntries(cs[1..], seen', i - d);
      m := m + 1;
    }
  }

  lemma HeaderWords()
    ensures OneLine("// ======== ") && OneLine(" ========")
  {
  }

  lemma GroupNameOneLine(group: string)
    requires group != "" && OneLine(group)
    ensures OneLine(Cheatcodes.GroupName(group))
  {
    forall c | c in Cheatcodes.GroupName(group) ensures !LineEnd(c) {
      if group != "evm" && group != "json" { assert c == Cheatcodes.Upper(group[0]) || c in group; }
    }
  }

  lemma HeaderDeclarationOk(st: Style, c: Cheatcodes.Cheatcode)
    requires CheatcodeOk(st, c)
    ensures DeclarationOk(Code, Cheatcodes.Header(c).func.declaration)
  {
    var front, name, back := "// ======== ", Cheatcodes.GroupName(c.group), " ========";
    var s := front + name + back;
    HeaderWords();
    GroupNameOneLine(c.group);
    OneLineAppend(front, name);
    OneLineAppend(front + name, back);
    OneLineIsHidden(s, "");
    assert s + "" == s && s[0] == front[0] && s[1] == front[1];
  }

  lemma OneLineAppend(a: string, b: string)
    requires OneLine(a) && OneLine(b)
    ensures OneLine(a + b)
  {
  }

  /** End to end: the interface printed for a list of cheatcodes with its group headers has balanced, properly nested
      braces to a Solidity reader, provided every description and group name is one its comment hides. */
  lemma GeneratedInterfaceBalanced(st: Style, cs: seq<Cheatcodes.Cheatcode>, rest: Contract, name: string,
      inherits: string)
    requires StyleOk(Code, st) && NamesOk(Code, st, name, inherits)
    requires Cheatcodes.Named(cs) && forall c :: c in cs ==> CheatcodeOk(st, c)
    requires rest.functions == [] && ContractOk(Code, st, rest)
    ensures var c := rest.(functions := AsDeclared(Cheatcodes.WithHeaders(cs, {})));
            Balanced(Code, ContractText(st, false, 0, c, name, inherits))
  {
    var out := Cheatcodes.WithHeaders(cs, {});
    var c := rest.(functions := AsDeclared(out));
    forall i | 0 <= i < |c.functions| ensures DeclaredOk(Code, st, c.functions[i]) {
      var m := OutputEntries(cs, {}, i);
      assert CheatcodeOk(st, cs[m]);
      HeaderDeclarationOk(st, cs[m]);
      EmptyDescriptionOk(st);
    }
    ContractBalanced(Code, st, false, 0, c, name, inherits);
  }
}
