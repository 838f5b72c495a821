/**
 * What a printed interface says (vm.py), row by row: it is exactly the license and the pragma, the opening line, the
 * comment and the declaration of every item in the configured order, and the closing brace, each with its indentation.
 */
module PrintedLines {
  import opened Printer
  import C = Cheatcodes

  // ---------------------------------------------------------------- rows

  /** One line of the output and how many indentations stand before it. */
  datatype Row = Row(depth: nat, text: string)

  const BLANK := Row(0, "")

  function Times(s: string, n: nat): string { if n == 0 then "" else s + Times(s, n - 1) }

  function Shown(st: Style, rows: seq<Row>): string {
    if rows == [] then "" else Times(st.indentStr, rows[0].depth) + rows[0].text + st.nl + Shown(st, rows[1..])
  }

  /** No indentation goes below none. */
  function Depth(level: int): nat { if level < 0 then 0 else level }

  lemma {:induction false} TimesBoth(s: string, m: nat, n: nat)
    ensures Times(s, m) + Times(s, n) == Times(s, m + n)
  {
    if m > 0 {
      TimesBoth(s, m - 1, n);
      Assoc(s, Times(s, m - 1), Times(s, n));
    }
  }

  lemma {:induction false} IndentIsTimes(st: Style, level: int)
    ensures Indent(st, level) == Times(st.indentStr, Depth(level))
  {
    if level > 0 {
      IndentIsTimes(st, level - 1);
      assert Times(st.indentStr, 1) == st.indentStr + "" == st.indentStr;
      TimesBoth(st.indentStr, level - 1, 1);
    }
  }

  lemma {:induction false} ShownBoth(st: Style, a: seq<Row>, b: seq<Row>)
    ensures Shown(st, a + b) == Shown(st, a) + Shown(st, b)
    decreases |a|
  {
    if a == [] {
      assert a + b == b;
    } else {
      ShownBoth(st, a[1..], b);
      assert (a + b)[1..] == a[1..] + b && (a + b)[0] == a[0];
      Assoc(Times(st.indentStr, a[0].depth) + a[0].text + st.nl, Shown(st, a[1..]), Shown(st, b));
    }
  }

  lemma {:induction false} ShownOne(st: Style, row: Row)
    ensures Shown(st, [row]) == Times(st.indentStr, row.depth) + row.text + st.nl
  {
    assert [row][1..] == [];
  }

  /** One more row. */
  lemma {:induction false} ShownMore(st: Style, rows: seq<Row>, row: Row)
    ensures Shown(st, rows + [row]) == Shown(st, rows) + (Times(st.indentStr, row.depth) + row.text + st.nl)
  {
    ShownBoth(st, rows, [row]);
    ShownOne(st, row);
  }

  lemma {:induction false} LineShown(st: Style, level: int, text: string)
    ensures Line(st, level, text) == Shown(st, [Row(Depth(level), text)])
  {
    IndentIsTimes(st, level);
    ShownOne(st, Row(Depth(level), text));
  }

  lemma {:induction false} BlankShown(st: Style)
    ensures Shown(st, [BLANK]) == st.nl
  {
    ShownOne(st, BLANK);
    assert Times(st.indentStr, 0) == "";
    assert "" + "" + st.nl == st.nl;
  }

  // ---------------------------------------------------------------- comments

  function AllAt(depth: nat, prefix: string, lines: seq<string>): seq<Row> {
    seq(|lines|, i requires 0 <= i < |lines| => Row(depth, prefix + lines[i]))
  }

  /** A comment: every line marked, or a block with a line for each. */
  function CommentRows(block: bool, doc: bool, depth: nat, lines: seq<string>): seq<Row> {
    if block then
      [Row(depth, if doc then "/**" else "/*")] + AllAt(depth, if doc then " * " else " ", lines) + [Row(depth, " */")]
    else AllAt(depth, if doc then "/// " else "// ", lines)
  }

  /** A line under its comment. Without one it is indented twice. */
  function Headed(block: bool, doc: bool, depth: nat, description: string, line: string): seq<Row> {
    if Strip(description) == "" then [Row(2 * depth, line)]
    else CommentRows(block, doc, depth, DescriptionLines(description)) + [Row(depth, line)]
  }

  lemma {:induction false} LineCommentShown(st: Style, level: int, doc: bool, lines: seq<string>, n: nat)
    requires 0 < n <= |lines|
    ensures Indent(st, level) + LineComment(st, level, doc, lines, n)
            == Shown(st, CommentRows(false, doc, Depth(level), lines)[..n])
    decreases n
  {
    var rows := CommentRows(false, doc, Depth(level), lines);
    var ind, line := Indent(st, level), CommentLine(st, level, n == 1, doc, lines[n - 1]);
    IndentIsTimes(st, level);
    ShownMore(st, rows[..n - 1], rows[n - 1]);
    assert rows[..n] == rows[..n - 1] + [rows[n - 1]];
    MarkedLine(ind, Marker(doc), lines[n - 1], st.nl);
    if n == 1 {
      assert rows[..0] == [];
      assert "" + line == line;
    } else {
      LineCommentShown(st, level, doc, lines, n - 1);
      Assoc(ind, LineComment(st, level, doc, lines, n - 1), line);
    }
  }

  lemma {:induction false} MarkedLine(ind: string, mark: string, line: string, nl: string)
    ensures ind + (mark + line) + nl == ind + mark + line + nl
    ensures ind + ("" + mark + line + nl) == ind + (mark + line) + nl
  {
    Assoc(ind, mark, line);
    Assoc(ind, mark + line, nl);
    assert "" + mark == mark;
  }

  lemma {:induction false} BlockBodyShown(st: Style, level: int, doc: bool, lines: seq<string>, n: nat)
    requires n <= |lines|
    ensures BlockBody(st, level, doc, lines, n)
            == Shown(st, AllAt(Depth(level), if doc then " * " else " ", lines)[..n])
    decreases n
  {
    var star := if doc then " * " else " ";
    var rows := AllAt(Depth(level), star, lines);
    if n > 0 {
      BlockBodyShown(st, level, doc, lines, n - 1);
      IndentIsTimes(st, level);
      ShownMore(st, rows[..n - 1], rows[n - 1]);
      assert rows[..n] == rows[..n - 1] + [rows[n - 1]];
      MarkedLine(Indent(st, level), star, lines[n - 1], st.nl);
      Assoc(Indent(st, level), " ", if doc then "* " else "");
      assert " " + (if doc then "* " else "") == star;
    }
  }

  lemma {:induction false} BlockCommentShown(st: Style, level: int, doc: bool, lines: seq<string>)
    ensures Indent(st, level) + BlockComment(st, level, doc, lines)
            == Shown(st, CommentRows(true, doc, Depth(level), lines))
  {
    var ind, open, close := Indent(st, level), Row(Depth(level), BlockOpen(doc)), Row(Depth(level), " */");
    var rows, body := AllAt(Depth(level), if doc then " * " else " ", lines), BlockBody(st, level, doc, lines, |lines|);
    BlockBodyShown(st, level, doc, lines, |lines|);
    assert rows[..|lines|] == rows;
    IndentIsTimes(st, level);
    ShownOne(st, open);
    ShownBoth(st, [open], rows);
    LineShown(st, level, " */");
    ShownBoth(st, [open] + rows, [close]);
    Assoc(ind, BlockOpen(doc), st.nl);
    Assoc(ind, BlockOpen(doc) + st.nl, body);
    Assoc(ind, BlockOpen(doc) + st.nl + body, Line(st, level, " */"));
  }

  /** A comment after an indentation already made. */
  lemma {:induction false} CommentShown(st: Style, level: int, s: string, doc: bool)
    requires Strip(s) != ""
    ensures Indent(st, level) + CommentText(st, level, s, doc)
            == Shown(st, CommentRows(st.block, doc, Depth(level), DescriptionLines(s)))
  {
    var lines := DescriptionLines(s);
    if st.block {
      BlockCommentShown(st, level, doc, lines);
    } else {
      LineCommentShown(st, level, doc, lines, |lines|);
      var rows := CommentRows(false, doc, Depth(level), lines);
      assert rows[..|lines|] == rows;
    }
  }

  /** A commented line after an indentation already made. */
  lemma {:induction false} HeadedShown(st: Style, level: int, s: string, doc: bool, line: string)
    ensures Indent(st, level) + CommentText(st, level, s, doc) + Line(st, level, line)
            == Shown(st, Headed(st.block, doc, Depth(level), s, line))
  {
    var ind, d := Indent(st, level), Depth(level);
    if Strip(s) == "" {
      IndentIsTimes(st, level);
      TimesBoth(st.indentStr, d, d);
      ShownOne(st, Row(2 * d, line));
      assert ind + "" == ind;
      Assoc(ind, ind, line);
      Assoc(ind, ind + line, st.nl);
    } else {
      CommentShown(st, level, s, doc);
      LineShown(st, level, line);
      ShownBoth(st, CommentRows(st.block, doc, d, DescriptionLines(s)), [Row(d, line)]);
    }
  }

  // ---------------------------------------------------------------- items

  /** Errors, events or functions: each with its comment, its declaration and an empty line. */
  function DeclaredRows(block: bool, depth: nat, ds: seq<Declared>): seq<Row> {
    if ds == [] then []
    else
      var d := ds[|ds| - 1];
      DeclaredRows(block, depth, ds[..|ds| - 1]) + (Headed(block, true, depth, d.description, d.declaration) + [BLANK])
  }

  function VariantHeaded(block: bool, depth: nat, v: EnumVariant, last: bool): seq<Row> {
    Headed(block, false, depth, v.description, v.name + (if last then "" else ","))
  }

  /** Variants, with a comma after every one but the last. */
  function VariantRows(block: bool, depth: nat, vs: seq<EnumVariant>, n: nat): seq<Row>
    requires n <= |vs|
  {
    if n == 0 then []
    else
      VariantRows(block, depth, vs, n - 1) + VariantHeaded(block, depth, vs[n - 1], n == |vs|)
  }

  /** Fields, type before name. */
  function FieldRows(block: bool, depth: nat, fs: seq<StructField>): seq<Row> {
    if fs == [] then []
    else
      var f := fs[|fs| - 1];
      FieldRows(block, depth, fs[..|fs| - 1])
      + Headed(block, false, depth, f.description, f.ty + " " + f.name + ";")
  }

  /** A commented block one level around its body, and an empty line. */
  function BlockRows(block: bool, depth: nat, description: string, head: string, body: seq<Row>): seq<Row> {
    Headed(block, true, depth, description, head) + body + [Row(depth, "}")] + [BLANK]
  }

  function EnumRows(block: bool, level: int, es: seq<Enum>): seq<Row> {
    if es == [] then []
    else
      var e := es[|es| - 1];
      EnumRows(block, level, es[..|es| - 1])
      + BlockRows(block, Depth(level), e.description, "enum " + e.name + " {",
                  VariantRows(block, Depth(level + 1), e.variants, |e.variants|))
  }

  function StructRows(block: bool, level: int, ss: seq<Struct>): seq<Row> {
    if ss == [] then []
    else
      var s := ss[|ss| - 1];
      StructRows(block, level, ss[..|ss| - 1])
      + BlockRows(block, Depth(level), s.description, "struct " + s.name + " {",
                  FieldRows(block, Depth(level + 1), s.fields))
  }

  function ItemRows(block: bool, level: int, c: Contract, item: Item): seq<Row> {
    match item
    case ErrorItem => DeclaredRows(block, Depth(level), c.errors)
    case EventItem => DeclaredRows(block, Depth(level), c.events)
    case EnumItem => EnumRows(block, level, c.enums)
    case StructItem => StructRows(block, level, c.structs)
    case FunctionItem => DeclaredRows(block, Depth(level), c.functions)
  }

  function RowsOf(block: bool, level: int, c: Contract, order: seq<Item>): seq<Row> {
    if order == [] then []
    else RowsOf(block, level, c, order[..|order| - 1]) + ItemRows(block, level, c, order[|order| - 1])
  }

  lemma {:induction false} DeclarationShown(st: Style, level: int, d: Declared)
    ensures Line(st, level, DeclaredText(st, level, d))
            == Shown(st, Headed(st.block, true, Depth(level), d.description, d.declaration) + [BLANK])
  {
    var rows := Headed(st.block, true, Depth(level), d.description, d.declaration);
    HeadedShown(st, level, d.description, true, d.declaration);
    BlankShown(st);
    ShownBoth(st, rows, [BLANK]);
    Assoc(Indent(st, level), CommentText(st, level, d.description, true), Line(st, level, d.declaration));
  }

  lemma {:induction false} DeclaredShown(st: Style, level: int, ds: seq<Declared>)
    ensures DeclaredTexts(st, level, ds) == Shown(st, DeclaredRows(st.block, Depth(level), ds))
  {
    if ds != [] {
      var front, d := ds[..|ds| - 1], ds[|ds| - 1];
      DeclaredShown(st, level, front);
      DeclarationShown(st, level, d);
      ShownBoth(st, DeclaredRows(st.block, Depth(level), front),
                Headed(st.block, true, Depth(level), d.description, d.declaration) + [BLANK]);
    }
  }

  lemma {:induction false} VariantShown(st: Style, level: int, v: EnumVariant, last: bool)
    ensures VariantText(st, level, v, last)
            == Shown(st, VariantHeaded(st.block, Depth(level), v, last))
  {
    var comma := if last then "" else ",";
    HeadedShown(st, level, v.description, false, v.name + comma);
    Assoc(Indent(st, level), v.name, comma);
  }

  lemma {:induction false} VariantAppended(st: Style, level: int, rows: seq<Row>, v: EnumVariant, last: bool)
    ensures Shown(st, rows) + VariantText(st, level, v, last)
            == Shown(st, rows + VariantHeaded(st.block, Depth(level), v, last))
  {
    VariantShown(st, level, v, last);
    ShownBoth(st, rows, VariantHeaded(st.block, Depth(level), v, last));
  }

  lemma OneMoreVariant(st: Style, level: int, vs: seq<EnumVariant>, n: nat)
    requires n < |vs|
    ensures VariantTexts(st, level, vs, n + 1)
            == VariantTexts(st, level, vs, n) + VariantText(st, level, vs[n], n + 1 == |vs|)
    ensures VariantRows(st.block, Depth(level), vs, n + 1)
            == VariantRows(st.block, Depth(level), vs, n) + VariantHeaded(st.block, Depth(level), vs[n], n + 1 == |vs|)
  {
  }

  lemma {:induction false} VariantsShown(st: Style, level: int, vs: seq<EnumVariant>, n: nat)
    requires n <= |vs|
    ensures VariantTexts(st, level, vs, n) == Shown(st, VariantRows(st.block, Depth(level), vs, n))
    decreases n
  {
    if n > 0 {
      var m: nat := n - 1;
      VariantsShown(st, level, vs, m);
      OneMoreVariant(st, level, vs, m);
      VariantAppended(st, level, VariantRows(st.block, Depth(level), vs, m), vs[m], m + 1 == |vs|);
    }
  }

  lemma {:induction false} FieldShown(st: Style, level: int, f: StructField)
    ensures Line(st, level, FieldText(st, level, f))
            == Shown(st, Headed(st.block, false, Depth(level), f.description, f.ty + " " + f.name + ";"))
  {
    HeadedShown(st, level, f.description, false, f.ty + " " + f.name + ";");
    Regrouped(Indent(st, level), CommentText(st, level, f.description, false), f.ty + " " + f.name + ";", st.nl);
  }

  lemma {:induction false} Regrouped(ind: string, comment: string, line: string, nl: string)
    ensures ind + (comment + ind + line) + nl == ind + comment + (ind + line + nl)
  {
    Assoc(comment, ind, line);
    Assoc(ind, comment, ind + line);
    Assoc(ind + comment, ind + line, nl);
  }

  lemma {:induction false} FieldsShown(st: Style, level: int, fs: seq<StructField>)
    ensures FieldTexts(st, level, fs) == Shown(st, FieldRows(st.block, Depth(level), fs))
  {
    if fs != [] {
      var front, f := fs[..|fs| - 1], fs[|fs| - 1];
      FieldsShown(st, level, front);
      FieldShown(st, level, f);
      ShownBoth(st, FieldRows(st.block, Depth(level), front),
                Headed(st.block, false, Depth(level), f.description, f.ty + " " + f.name + ";"));
    }
  }

  lemma {:induction false} BlockShown(st: Style, level: int, s: string, head: string, body: string, rows: seq<Row>)
    requires body == Shown(st, rows)
    ensures Line(st, level, CommentText(st, level, s, true) + Line(st, level, head) + body + Line(st, level, "}"))
            == Shown(st, BlockRows(st.block, Depth(level), s, head, rows))
  {
    var ind, comment, opening, close :=
      Indent(st, level), CommentText(st, level, s, true), Line(st, level, head), Line(st, level, "}");
    var first := Headed(st.block, true, Depth(level), s, head);
    HeadedShown(st, level, s, true, head);
    LineShown(st, level, "}");
    BlankShown(st);
    ShownBoth(st, first, rows);
    ShownBoth(st, first + rows, [Row(Depth(level), "}")]);
    ShownBoth(st, first + rows + [Row(Depth(level), "}")], [BLANK]);
    Assoc(ind, comment, opening);
    Assoc(ind, comment + opening, body);
    Assoc(ind, comment + opening + body, close);
  }

  lemma {:induction false} EnumsShown(st: Style, level: int, es: seq<Enum>)
    ensures EnumTexts(st, level, es) == Shown(st, EnumRows(st.block, level, es))
  {
    if es != [] {
      var front, e := es[..|es| - 1], es[|es| - 1];
      var rows := VariantRows(st.block, Depth(level + 1), e.variants, |e.variants|);
      EnumsShown(st, level, front);
      VariantsShown(st, level + 1, e.variants, |e.variants|);
      BlockShown(st, level, e.description, "enum " + e.name + " {", AllVariants(st, level + 1, e.variants), rows);
      ShownBoth(st, EnumRows(st.block, level, front),
                BlockRows(st.block, Depth(level), e.description, "enum " + e.name + " {", rows));
    }
  }

  lemma {:induction false} StructsShown(st: Style, level: int, ss: seq<Struct>)
    ensures StructTexts(st, level, ss) == Shown(st, StructRows(st.block, level, ss))
  {
    if ss != [] {
      var front, s := ss[..|ss| - 1], ss[|ss| - 1];
      var rows := FieldRows(st.block, Depth(level + 1), s.fields);
      StructsShown(st, level, front);
      FieldsShown(st, level + 1, s.fields);
      BlockShown(st, level, s.description, "struct " + s.name + " {", FieldTexts(st, level + 1, s.fields), rows);
      ShownBoth(st, StructRows(st.block, level, front),
                BlockRows(st.block, Depth(level), s.description, "struct " + s.name + " {", rows));
    }
  }

  lemma {:induction false} ItemShown(st: Style, level: int, c: Contract, item: Item)
    ensures ItemText(st, level, c, item) == Shown(st, ItemRows(st.block, level, c, item))
  {
    match item {
      case ErrorItem => DeclaredShown(st, level, c.errors);
      case EventItem => DeclaredShown(st, level, c.events);
      case EnumItem => EnumsShown(st, level, c.enums);
      case StructItem => StructsShown(st, level, c.structs);
      case FunctionItem => DeclaredShown(st, level, c.functions);
    }
  }

  lemma {:induction false} ItemsShown(st: Style, level: int, c: Contract, order: seq<Item>)
    ensures ItemsText(st, level, c, order) == Shown(st, RowsOf(st.block, level, c, order))
  {
    if order != [] {
      var front, item := order[..|order| - 1], order[|order| - 1];
      ItemsShown(st, level, c, front);
      ItemShown(st, level, c, item);
      ShownBoth(st, RowsOf(st.block, level, c, front), ItemRows(st.block, level, c, item));
    }
  }

  // ---------------------------------------------------------------- the contract

  function PreludeRows(st: Style): seq<Row> {
    [Row(0, "// SPDX-License-Identifier: " + st.spdx),
     Row(0, "pragma solidity " + (if st.solidity == "" then ">=0.8.13 <0.9.0" else st.solidity) + ";"),
     BLANK]
  }

  /** The opening line: the stripped name and the bases, each followed by a space when there is one. */
  function OpeningLine(name: string, inherits: string): string {
    var named := if Strip(name) == "" then "" else Strip(name) + " ";
    var bases := if inherits == "" then "" else "is " + inherits + " ";
    "interface " + named + bases + "{"
  }

  lemma {:induction false} Unindented(st: Style, text: string)
    ensures Shown(st, [Row(0, text)]) == text + st.nl
  {
    ShownOne(st, Row(0, text));
    assert "" + text == text;
  }

  lemma {:induction false} PreludeShown(st: Style)
    ensures PreludeText(st) == Shown(st, PreludeRows(st))
  {
    var license, pragma := PreludeRows(st)[0], PreludeRows(st)[1];
    Unindented(st, license.text);
    Unindented(st, pragma.text);
    BlankShown(st);
    ShownBoth(st, [license], [pragma]);
    ShownBoth(st, [license] + [pragma], [BLANK]);
    assert [license] + [pragma] + [BLANK] == PreludeRows(st);
    assert license.text == LicenseLine(st) && pragma.text == PragmaLine(st);
    Assoc(license.text + st.nl, pragma.text, st.nl);
  }

  function ContractRows(st: Style, prelude: bool, level: int, c: Contract, name: string, inherits: string): seq<Row> {
    (if prelude then PreludeRows(st) else []) + [Row(0, OpeningLine(name, inherits))]
    + RowsOf(st.block, level + 1, c, st.order) + [Row(0, "}")]
  }

  /** A printed contract is exactly its rows: nothing is left out, added, indented otherwise or out of order. */
  lemma {:induction false} ContractShown(st: Style, prelude: bool, level: int, c: Contract, name: string,
      inherits: string)
    ensures ContractText(st, prelude, level, c, name, inherits)
            == Shown(st, ContractRows(st, prelude, level, c, name, inherits))
  {
    var first, open := if prelude then PreludeRows(st) else [], Row(0, OpeningLine(name, inherits));
    var rows := RowsOf(st.block, level + 1, c, st.order);
    PreludeShown(st);
    Unindented(st, OpeningLine(name, inherits));
    Unindented(st, "}");
    ItemsShown(st, level + 1, c, st.order);
    ShownBoth(st, first, [open]);
    ShownBoth(st, first + [open], rows);
    ShownBoth(st, first + [open] + rows, [Row(0, "}")]);
  }

  // ---------------------------------------------------------------- the generated interface

  /** Where the declaration of entry `i` is among the rows of a list of declarations. */
  function RowOf(block: bool, depth: nat, ds: seq<Declared>, i: nat): nat
    requires i < |ds|
  {
    |DeclaredRows(block, depth, ds[..i])| + |Headed(block, true, depth, ds[i].description, ds[i].declaration)| - 1
  }

  lemma {:induction false} RowOfIs(block: bool, depth: nat, ds: seq<Declared>, i: nat)
    requires i < |ds|
    ensures RowOf(block, depth, ds, i) < |DeclaredRows(block, depth, ds)|
    ensures DeclaredRows(block, depth, ds)[RowOf(block, depth, ds, i)].text == ds[i].declaration
    decreases |ds|
  {
    var front := ds[..|ds| - 1];
    if i < |front| {
      RowOfIs(block, depth, front, i);
      assert front[..i] == ds[..i];
    } else {
      assert ds[..i] == front;
    }
  }

  lemma {:induction false} RowsInOrder(block: bool, depth: nat, ds: seq<Declared>, i: nat, j: nat)
    requires i < j < |ds|
    ensures RowOf(block, depth, ds, i) < RowOf(block, depth, ds, j)
  {
    RowOfIs(block, depth, ds[..j], i);
    assert ds[..j][..i] == ds[..i] && ds[..j][i] == ds[i];
  }

  /** How a group's name is displayed: two of them in capitals, the others with a capital first letter. */
  predicate DisplayName(group: string, name: string) {
    if group == "evm" then name == "EVM"
    else if group == "json" then name == "JSON"
    else && |name| == |group| > 0 && name[1..] == group[1..]
         && (if 'a' <= group[0] <= 'z' then name[0] as int == group[0] as int - 32 else name[0] == group[0])
  }

  /** Every entry is printed, and not as the first of a group not seen before. */
  lemma {:induction false} EntryIsPrinted(cs: seq<C.Cheatcode>, seen: set<string>, i: nat) returns (j: nat)
    requires C.Named(cs) && i < |cs|
    ensures j < |C.WithHeaders(cs, seen)| && C.WithHeaders(cs, seen)[j] == cs[i]
    ensures cs[i].group in seen || !C.IsFirst(C.WithHeaders(cs, seen), j)
    decreases |cs|
  {
    var out := C.WithHeaders(cs, seen);
    var d := if cs[0].group in seen then 1 else 2;
    var seen' := if cs[0].group in seen then seen else seen + {cs[0].group};
    assert out[d - 1] == cs[0] && out[0].group == cs[0].group;
    if i == 0 {
      j := d - 1;
    } else {
      var k := EntryIsPrinted(cs[1..], seen', i - 1);
      j := k + d;
      var rest := C.WithHeaders(cs[1..], seen');
      assert out[d..] == rest && out[j] == rest[k];
      if cs[i].group !in seen' {
        var p :| 0 <= p < k && rest[p].group == rest[k].group;
        assert out[p + d] == rest[p];
      }
    }
  }

  /** A header's declaration. */
  function HeaderLine(name: string): string { "// ======== " + name + " ========" }

  lemma {:induction false} HeaderSays(c: C.Cheatcode) returns (name: string)
    requires c.group != ""
    ensures DisplayName(c.group, name) && C.Header(c).func.declaration == HeaderLine(name)
  {
    name := C.GroupName(c.group);
  }

  /** Entry `j` of a list with headers stands below its header, entry `h`, with none but entries of the same group in
      between. */
  predicate Below(out: seq<C.Cheatcode>, h: nat, j: nat) {
    h < j < |out| && forall p :: h <= p <= j ==> out[p].group == out[j].group
  }

  lemma {:induction false} HeaderAbove(cs: seq<C.Cheatcode>, i: nat) returns (name: string, h: nat, j: nat)
    requires C.Named(cs) && C.Sorted(cs) && i < |cs|
    ensures Below(C.WithHeaders(cs, {}), h, j) && C.WithHeaders(cs, {})[j] == cs[i]
    ensures DisplayName(cs[i].group, name) && C.WithHeaders(cs, {})[h].func.declaration == HeaderLine(name)
  {
    var out := C.WithHeaders(cs, {});
    j := EntryIsPrinted(cs, {}, i);
    h := C.SectionsAreContiguous(cs, j);
    name := HeaderSays(out[h + 1]);
    assert out[h].group == out[j].group;
  }

  /** The declaration of every cheatcode is printed below the header line of its group, with none but declarations of
      the same group in between. */
  lemma {:induction false} DeclarationUnderHeader(block: bool, depth: nat, cs: seq<C.Cheatcode>, ds: seq<Declared>,
      i: nat) returns (name: string, h: nat, j: nat)
    requires C.Named(cs) && C.Sorted(cs) && i < |cs| && ds == AsDeclared(C.WithHeaders(cs, {}))
    ensures Below(C.WithHeaders(cs, {}), h, j) && C.WithHeaders(cs, {})[j] == cs[i] && DisplayName(cs[i].group, name)
    ensures Shows(DeclaredRows(block, depth, ds), RowOf(block, depth, ds, h), HeaderLine(name),
                  RowOf(block, depth, ds, j), cs[i].func.declaration)
  {
    name, h, j := HeaderAbove(cs, i);
    RowOfIs(block, depth, ds, h);
    RowOfIs(block, depth, ds, j);
    RowsInOrder(block, depth, ds, h, j);
  }

  /** One text on row `p`, and further down another on row `q`. */
  predicate Shows(rows: seq<Row>, p: nat, above: string, q: nat, below: string) {
    p < q < |rows| && rows[p].text == above && rows[q].text == below
  }

  lemma ShowsBefore(rows: seq<Row>, more: seq<Row>, p: nat, above: string, q: nat, below: string)
    requires Shows(rows, p, above, q, below)
    ensures Shows(rows + more, p, above, q, below)
  {
  }

  lemma ShowsAfter(before: seq<Row>, rows: seq<Row>, p: nat, above: string, q: nat, below: string)
    requires Shows(rows, p, above, q, below)
    ensures Shows(before + rows, |before| + p, above, |before| + q, below)
  {
  }

  /** What is printed for the functions is printed. */
  lemma {:induction false} FunctionsArePrinted(block: bool, level: int, c: Contract, order: seq<Item>, p: nat,
      above: string, q: nat, below: string) returns (p': nat, q': nat)
    requires FunctionItem in order && Shows(DeclaredRows(block, Depth(level), c.functions), p, above, q, below)
    ensures Shows(RowsOf(block, level, c, order), p', above, q', below)
  {
    var front, item := order[..|order| - 1], order[|order| - 1];
    var own, before := ItemRows(block, level, c, item), RowsOf(block, level, c, front);
    if item == FunctionItem {
      ShowsAfter(before, own, p, above, q, below);
      p', q' := |before| + p, |before| + q;
    } else {
      assert order == front + [item];
      p', q' := FunctionsArePrinted(block, level, c, front, p, above, q, below);
      ShowsBefore(before, own, p', above, q', below);
    }
  }

  lemma {:induction false} FunctionsAreShown(st: Style, prelude: bool, level: int, c: Contract, title: string, p: nat,
      above: string, q: nat, below: string) returns (p': nat, q': nat)
    requires FunctionItem in st.order
    requires Shows(DeclaredRows(st.block, Depth(level + 1), c.functions), p, above, q, below)
    ensures Shows(ContractRows(st, prelude, level, c, title, ""), p', above, q', below)
  {
    var before := (if prelude then PreludeRows(st) else []) + [Row(0, OpeningLine(title, ""))];
    var items := RowsOf(st.block, level + 1, c, st.order);
    p', q' := FunctionsArePrinted(st.block, level + 1, c, st.order, p, above, q, below);
    ShowsAfter(before, items, p', above, q', below);
    p', q' := |before| + p', |before| + q';
    ShowsBefore(before + items, [Row(0, "}")], p', above, q', below);
  }

  /** End to end: the interface printed for a sorted list shows the declaration of every cheatcode on a line of its own,
      below the header line of its group. */
  lemma {:induction false} CheatcodeIsShown(st: Style, prelude: bool, level: int, c: Contract, title: string,
      cs: seq<C.Cheatcode>, i: nat) returns (rows: seq<Row>, name: string, p: nat, q: nat)
    requires FunctionItem in st.order
    requires C.Named(cs) && C.Sorted(cs) && i < |cs| && c.functions == AsDeclared(C.WithHeaders(cs, {}))
    ensures ContractText(st, prelude, level, c, title, "") == Shown(st, rows)
    ensures DisplayName(cs[i].group, name) && Shows(rows, p, HeaderLine(name), q, cs[i].func.declaration)
  {
    rows := ContractRows(st, prelude, level, c, title, "");
    ContractShown(st, prelude, level, c, title, "");
    var depth, ds := Depth(level + 1), c.functions;
    var h, j;
    name, h, j := DeclarationUnderHeader(st.block, depth, cs, ds, i);
    var a, b := RowOf(st.block, depth, ds, h), RowOf(st.block, depth, ds, j);
    p, q := FunctionsAreShown(st, prelude, level, c, title, a, HeaderLine(name), b, cs[i].func.declaration);
  }

  // ---------------------------------------------------------------- white space

  predicate Blank(s: string) { forall c :: c in s ==> IsSpace(c) }

  /** Stripping removes white space from both ends, all of it, and nothing else. */
  lemma {:induction false} StripExactly(s: string) returns (before: string, after: string)
    ensures s == before + Strip(s) + after && Blank(before) && Blank(after)
    ensures Strip(s) != "" ==> !IsSpace(Strip(s)[0]) && !IsSpace(Strip(s)[|Strip(s)| - 1])
  {
    before := LStripExactly(s);
    after := RStripExactly(LStrip(s));
    Assoc(before, Strip(s), after);
    if Strip(s) != "" { assert LStrip(s)[0] == Strip(s)[0]; }
  }

  lemma {:induction false} LStripExactly(s: string) returns (before: string)
    ensures s == before + LStrip(s) && Blank(before)
    ensures LStrip(s) != "" ==> !IsSpace(LStrip(s)[0])
  {
    before := "";
    if s != [] && IsSpace(s[0]) {
      var rest := LStripExactly(s[1..]);
      before := [s[0]] + rest;
    }
  }

  lemma {:induction false} RStripExactly(s: string) returns (after: string)
    ensures s == RStrip(s) + after && Blank(after)
    ensures RStrip(s) != "" ==> !IsSpace(RStrip(s)[|RStrip(s)| - 1])
  {
    after := "";
    if s != [] && IsSpace(s[|s| - 1]) {
      var rest := RStripExactly(s[..|s| - 1]);
      after := rest + [s[|s| - 1]];
    }
  }

  function Joined(lines: seq<string>): string
    requires lines != []
  {
    if |lines| == 1 then lines[0] else lines[0] + "\n" + Joined(lines[1..])
  }

  /** The lines of a text, joined by newlines, are the text again; none of them holds a newline. */
  lemma {:induction false} SplitExactly(s: string)
    ensures Joined(Split(s)) == s && forall i :: 0 <= i < |Split(s)| ==> '\n' !in Split(s)[i]
  {
    if s != [] {
      SplitExactly(s[1..]);
      var rest := Split(s[1..]);
      if s[0] == '\n' {
        assert ([[]] + rest)[1..] == rest;
      } else {
        var lines := [[s[0]] + rest[0]] + rest[1..];
        assert lines[1..] == rest[1..];
      }
    }
  }
}
