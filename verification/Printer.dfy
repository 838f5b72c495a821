/** The interface printer (vm.py, `CheatcodesPrinter`): a buffer, an indentation level, and nested print calls. */
module Printer {
  import Cheatcodes

  // ---------------------------------------------------------------- Python strings

  /** `str.isspace` for one character. */
  predicate IsSpace(c: char) {
    || '\U{9}' <= c <= '\U{D}' || '\U{1C}' <= c <= '\U{20}' || c == '\U{85}' || c == '\U{A0}' || c == '\U{1680}'
    || '\U{2000}' <= c <= '\U{200A}' || c == '\U{2028}' || c == '\U{2029}' || c == '\U{202F}' || c == '\U{205F}'
    || c == '\U{3000}'
  }

  function LStrip(s: string): (r: string)
    ensures forall c :: c in r ==> c in s
  {
    if s != [] && IsSpace(s[0]) then LStrip(s[1..]) else s
  }

  function RStrip(s: string): (r: string)
    ensures forall c :: c in r ==> c in s
  {
    if s != [] && IsSpace(s[|s| - 1]) then RStrip(s[..|s| - 1]) else s
  }

  function Strip(s: string): (r: string)
    ensures forall c :: c in r ==> c in s
  {
    RStrip(LStrip(s))
  }

  /** `s.split("\n")`. */
  function Split(s: string): (lines: seq<string>)
    ensures lines != []
    ensures forall i :: 0 <= i < |lines| ==> '\n' !in lines[i]
  {
    if s == [] then [[]]
    else
      var rest := Split(s[1..]);
      if s[0] == '\n' then [[]] + rest else [[s[0]] + rest[0]] + rest[1..]
  }

  function LStripAll(lines: seq<string>): (r: seq<string>)
    ensures |r| == |lines|
    ensures forall i :: 0 <= i < |lines| ==> r[i] == LStrip(lines[i])
  {
    seq(|lines|, i requires 0 <= i < |lines| => LStrip(lines[i]))
  }

  /** The lines of a description as comments show them. */
  function DescriptionLines(s: string): seq<string> {
    LStripAll(Split(Strip(s)))
  }

  // ---------------------------------------------------------------- what is printed

  /** An error, an event or a function: all three print as a comment and a declaration. */
  datatype Declared = Declared(description: string, declaration: string)

  datatype EnumVariant = EnumVariant(name: string, description: string)

  datatype Enum = Enum(name: string, description: string, variants: seq<EnumVariant>)

  datatype StructField = StructField(name: string, ty: string, description: string)

  datatype Struct = Struct(name: string, description: string, fields: seq<StructField>)

  datatype Contract = Contract(errors: seq<Declared>, events: seq<Declared>, enums: seq<Enum>, structs: seq<Struct>,
                               functions: seq<Declared>)

  datatype Item = ErrorItem | EventItem | EnumItem | StructItem | FunctionItem

  const DEFAULT_ORDER: seq<Item> := [ErrorItem, EventItem, EnumItem, StructItem, FunctionItem]

  function AsDeclared(cs: seq<Cheatcodes.Cheatcode>): seq<Declared> {
    seq(|cs|, i requires 0 <= i < |cs| => Declared(cs[i].func.description, cs[i].func.declaration))
  }

  /** The printer's settings. */
  datatype Style = Style(spdx: string, solidity: string, block: bool, indentStr: string, nl: string, order: seq<Item>)

  function Indent(st: Style, level: int): string {
    if level <= 0 then "" else Indent(st, level - 1) + st.indentStr
  }

  function Line(st: Style, level: int, body: string): string { Indent(st, level) + body + st.nl }

  function Marker(doc: bool): string { if doc then "/// " else "// " }

  function CommentLine(st: Style, level: int, first: bool, doc: bool, line: string): string {
    (if first then "" else Indent(st, level)) + Marker(doc) + line + st.nl
  }

  /** The first `n` lines of a line-style comment; the first is printed after an indentation already made. */
  function LineComment(st: Style, level: int, doc: bool, lines: seq<string>, n: nat): string
    requires n <= |lines|
  {
    if n == 0 then ""
    else LineComment(st, level, doc, lines, n - 1) + CommentLine(st, level, n == 1, doc, lines[n - 1])
  }

  function BlockLine(st: Style, level: int, doc: bool, line: string): string {
    Indent(st, level) + " " + (if doc then "* " else "") + line + st.nl
  }

  function BlockOpen(doc: bool): string { if doc then "/**" else "/*" }

  function BlockBody(st: Style, level: int, doc: bool, lines: seq<string>, n: nat): string
    requires n <= |lines|
  {
    if n == 0 then ""
    else BlockBody(st, level, doc, lines, n - 1) + BlockLine(st, level, doc, lines[n - 1])
  }

  function BlockComment(st: Style, level: int, doc: bool, lines: seq<string>): string {
    BlockOpen(doc) + st.nl + BlockBody(st, level, doc, lines, |lines|) + Line(st, level, " */")
  }

  function CommentText(st: Style, level: int, s: string, doc: bool): string {
    if Strip(s) == "" then ""
    else
      var lines := DescriptionLines(s);
      if st.block then BlockComment(st, level, doc, lines)
      else LineComment(st, level, doc, lines, |lines|)
  }

  function DeclaredText(st: Style, level: int, d: Declared): string {
    CommentText(st, level, d.description, true) + Line(st, level, d.declaration)
  }

  function DeclaredTexts(st: Style, level: int, ds: seq<Declared>): string {
    if ds == [] then ""
    else DeclaredTexts(st, level, ds[..|ds| - 1]) + Line(st, level, DeclaredText(st, level, ds[|ds| - 1]))
  }

  function VariantText(st: Style, level: int, v: EnumVariant, last: bool): string {
    Indent(st, level) + CommentText(st, level, v.description, false)
    + (Indent(st, level) + v.name + (if last then "" else ",") + st.nl)
  }

  function VariantTexts(st: Style, level: int, vs: seq<EnumVariant>, n: nat): string
    requires n <= |vs|
  {
    if n == 0 then "" else VariantTexts(st, level, vs, n - 1) + VariantText(st, level, vs[n - 1], n == |vs|)
  }

  function AllVariants(st: Style, level: int, vs: seq<EnumVariant>): string { VariantTexts(st, level, vs, |vs|) }

  function EnumHead(e: Enum): string { "enum " + e.name + " {" }

  function EnumText(st: Style, level: int, e: Enum): string {
    CommentText(st, level, e.description, true) + Line(st, level, EnumHead(e))
    + AllVariants(st, level + 1, e.variants) + Line(st, level, "}")
  }

  function EnumTexts(st: Style, level: int, es: seq<Enum>): string {
    if es == [] then ""
    else EnumTexts(st, level, es[..|es| - 1]) + Line(st, level, EnumText(st, level, es[|es| - 1]))
  }

  function FieldLine(f: StructField): string { f.ty + " " + f.name + ";" }

  function FieldText(st: Style, level: int, f: StructField): string {
    CommentText(st, level, f.description, false) + Indent(st, level) + FieldLine(f)
  }

  function FieldTexts(st: Style, level: int, fs: seq<StructField>): string {
    if fs == [] then ""
    else FieldTexts(st, level, fs[..|fs| - 1]) + Line(st, level, FieldText(st, level, fs[|fs| - 1]))
  }

  function StructHead(s: Struct): string { "struct " + s.name + " {" }

  function StructText(st: Style, level: int, s: Struct): string {
    CommentText(st, level, s.description, true) + Line(st, level, StructHead(s))
    + FieldTexts(st, level + 1, s.fields) + Line(st, level, "}")
  }

  function StructTexts(st: Style, level: int, ss: seq<Struct>): string {
    if ss == [] then ""
    else StructTexts(st, level, ss[..|ss| - 1]) + Line(st, level, StructText(st, level, ss[|ss| - 1]))
  }

  function ItemText(st: Style, level: int, c: Contract, item: Item): string {
    match item
    case ErrorItem => DeclaredTexts(st, level, c.errors)
    case EventItem => DeclaredTexts(st, level, c.events)
    case EnumItem => EnumTexts(st, level, c.enums)
    case StructItem => StructTexts(st, level, c.structs)
    case FunctionItem => DeclaredTexts(st, level, c.functions)
  }

  function ItemsText(st: Style, level: int, c: Contract, order: seq<Item>): string {
    if order == [] then ""
    else ItemsText(st, level, c, order[..|order| - 1]) + ItemText(st, level, c, order[|order| - 1])
  }

  function LicenseLine(st: Style): string { "// SPDX-License-Identifier: " + st.spdx }

  function PragmaLine(st: Style): string {
    "pragma solidity " + (if st.solidity != "" then st.solidity else ">=0.8.13 <0.9.0") + ";"
  }

  function PreludeText(st: Style): string { LicenseLine(st) + st.nl + PragmaLine(st) + st.nl + st.nl }

  function HeadText(name: string, inherits: string): string {
    "interface " + (if Strip(name) != "" then Strip(name) + " " else "")
      + (if inherits != "" then "is " + inherits + " " else "")
  }

  function OpenText(st: Style, name: string, inherits: string): string { HeadText(name, inherits) + "{" + st.nl }

  function CloseText(st: Style): string { "}" + st.nl }

  function ContractText(st: Style, prelude: bool, level: int, c: Contract, name: string, inherits: string): string {
    (if prelude then PreludeText(st) else "") + OpenText(st, name, inherits) + ItemsText(st, level + 1, c, st.order)
      + CloseText(st)
  }

  // ---------------------------------------------------------------- the printer

  class CheatcodesPrinter {
    const st: Style
    var prelude: bool
    var buffer: string
    var indentLevel: int

    constructor (st: Style, prelude: bool)
      ensures this.st == st && this.prelude == prelude && buffer == "" && indentLevel == 0
    {
      this.st, this.prelude, buffer, indentLevel := st, prelude, "", 0;
    }

    /** The text so far, stripped on the right; the buffer starts over. */
    method Finish() returns (ret: string)
      modifies this`buffer
      ensures ret == RStrip(old(buffer)) && buffer == ""
    {
      ret := RStrip(buffer);
      buffer := "";
    }

    method PStr(txt: string)
      modifies this`buffer
      ensures buffer == old(buffer) + txt
    {
      buffer := buffer + txt;
    }

    method PNl()
      modifies this`buffer
      ensures buffer == old(buffer) + st.nl
    {
      PStr(st.nl);
    }

    method PIndent()
      modifies this`buffer
      ensures buffer == old(buffer) + Indent(st, indentLevel)
    {
      if indentLevel <= 0 { return; }
      for n := 0 to indentLevel
        invariant buffer == old(buffer) + Indent(st, n)
      {
        Assoc(old(buffer), Indent(st, n), st.indentStr);
        PStr(st.indentStr);
      }
    }

    /** `_p_line` around a plain string. */
    method PLine(txt: string)
      modifies this`buffer
      ensures buffer == old(buffer) + Line(st, indentLevel, txt)
    {
      Assoc(old(buffer), Indent(st, indentLevel), txt);
      Assoc(old(buffer), Indent(st, indentLevel) + txt, st.nl);
      PIndent();
      PStr(txt);
      PNl();
    }

    method PBlockLine(doc: bool, line: string)
      modifies this`buffer
      ensures buffer == old(buffer) + BlockLine(st, indentLevel, doc, line)
    {
      var b0, ind, star := buffer, Indent(st, indentLevel), if doc then "* " else "";
      PIndent();
      PStr(" ");
      Assoc(b0, ind, " ");
      if doc { PStr("* "); }
      Assoc(b0, ind + " ", star);
      PStr(line);
      Assoc(b0, ind + " " + star, line);
      PNl();
      Assoc(b0, ind + " " + star + line, st.nl);
    }

    method PCommentLine(first: bool, doc: bool, line: string)
      modifies this`buffer
      ensures buffer == old(buffer) + CommentLine(st, indentLevel, first, doc, line)
    {
      var b0, ind, mark := buffer, if first then "" else Indent(st, indentLevel), Marker(doc);
      if !first { PIndent(); }
      if doc { PStr("/// "); } else { PStr("// "); }
      Assoc(b0, ind, mark);
      PStr(line);
      Assoc(b0, ind + mark, line);
      PNl();
      Assoc(b0, ind + mark + line, st.nl);
    }

    method PBlockComment(doc: bool, lines: seq<string>)
      modifies this`buffer
      ensures buffer == old(buffer) + BlockComment(st, indentLevel, doc, lines)
    {
      var b0 := buffer;
      PStr("/*");
      if doc { PStr("*"); }
      assert buffer == b0 + BlockOpen(doc);
      PNl();
      Assoc(b0, BlockOpen(doc), st.nl);
      for i := 0 to |lines|
        invariant buffer == b0 + (BlockOpen(doc) + st.nl + BlockBody(st, indentLevel, doc, lines, i))
      {
        PBlockLine(doc, lines[i]);
        Assoc(b0, BlockOpen(doc) + st.nl + BlockBody(st, indentLevel, doc, lines, i),
              BlockLine(st, indentLevel, doc, lines[i]));
        Assoc(BlockOpen(doc) + st.nl, BlockBody(st, indentLevel, doc, lines, i),
              BlockLine(st, indentLevel, doc, lines[i]));
      }
      PLine(" */");
      Assoc(b0, BlockOpen(doc) + st.nl + BlockBody(st, indentLevel, doc, lines, |lines|), Line(st, indentLevel, " */"));
    }

    method PComment(s: string, doc: bool)
      modifies this`buffer
      ensures buffer == old(buffer) + CommentText(st, indentLevel, s, doc)
    {
      var stripped := Strip(s);
      if stripped == "" { return; }
      var lines := LStripAll(Split(stripped));
      if st.block {
        PBlockComment(doc, lines);
      } else {
        var firstLine := true;
        for i := 0 to |lines|
          invariant firstLine <==> i == 0
          invariant buffer == old(buffer) + LineComment(st, indentLevel, doc, lines, i)
        {
          PCommentLine(firstLine, doc, lines[i]);
          Assoc(old(buffer), LineComment(st, indentLevel, doc, lines, i),
                CommentLine(st, indentLevel, firstLine, doc, lines[i]));
          firstLine := false;
        }
      }
    }

    /** `p_error`, `p_event` and `p_function`. */
    method PDeclared(d: Declared)
      modifies this`buffer
      ensures buffer == old(buffer) + DeclaredText(st, indentLevel, d)
    {
      PComment(d.description, true);
      PLine(d.declaration);
      Assoc(old(buffer), CommentText(st, indentLevel, d.description, true), Line(st, indentLevel, d.declaration));
    }

    /** `p_errors`, `p_events` and `p_functions`. */
    method PDeclaredAll(ds: seq<Declared>)
      modifies this`buffer
      ensures buffer == old(buffer) + DeclaredTexts(st, indentLevel, ds)
    {
      for i := 0 to |ds|
        invariant buffer == old(buffer) + DeclaredTexts(st, indentLevel, ds[..i])
      {
        ghost var b := buffer;
        PIndent();
        PDeclared(ds[i]);
        PNl();
        Wrapped(b, Indent(st, indentLevel), DeclaredText(st, indentLevel, ds[i]), st.nl);
        assert ds[..i + 1][..i] == ds[..i];
        Assoc(old(buffer), DeclaredTexts(st, indentLevel, ds[..i]),
              Line(st, indentLevel, DeclaredText(st, indentLevel, ds[i])));
      }
      assert ds[..|ds|] == ds;
    }

    method PEnumVariant(v: EnumVariant, last: bool)
      modifies this`buffer
      ensures buffer == old(buffer) + VariantText(st, indentLevel, v, last)
    {
      var b0, ind, comment := buffer, Indent(st, indentLevel), CommentText(st, indentLevel, v.description, false);
      PIndent();
      PComment(v.description, false);
      Assoc(b0, ind, comment);
      var b1 := buffer;
      PIndent();
      PStr(v.name);
      Assoc(b1, ind, v.name);
      if !last { PStr(","); }
      Assoc(b1, ind + v.name, if last then "" else ",");
      PNl();
      Assoc(b1, ind + v.name + (if last then "" else ","), st.nl);
      Assoc(b0, ind + comment, ind + v.name + (if last then "" else ",") + st.nl);
    }

    method PEnumVariants(vs: seq<EnumVariant>)
      modifies this`buffer
      ensures buffer == old(buffer) + AllVariants(st, indentLevel, vs)
    {
      for i := 0 to |vs|
        invariant buffer == old(buffer) + VariantTexts(st, indentLevel, vs, i)
      {
        PEnumVariant(vs[i], !(i < |vs| - 1));
        Assoc(old(buffer), VariantTexts(st, indentLevel, vs, i), VariantText(st, indentLevel, vs[i], i + 1 == |vs|));
      }
    }

    method PEnum(e: Enum)
      modifies this`buffer, this`indentLevel
      ensures indentLevel == old(indentLevel)
      ensures buffer == old(buffer) + EnumText(st, indentLevel, e)
    {
      ghost var comment, head := CommentText(st, indentLevel, e.description, true), Line(st, indentLevel, EnumHead(e));
      ghost var body, tail := AllVariants(st, indentLevel + 1, e.variants), Line(st, indentLevel, "}");
      PComment(e.description, true);
      PLine(EnumHead(e));
      indentLevel := indentLevel + 1;
      PEnumVariants(e.variants);
      indentLevel := indentLevel - 1;
      PLine("}");
      Assoc(old(buffer), comment, head);
      Assoc(old(buffer), comment + head, body);
      Assoc(old(buffer), comment + head + body, tail);
    }

    method PEnums(es: seq<Enum>)
      modifies this`buffer, this`indentLevel
      ensures indentLevel == old(indentLevel)
      ensures buffer == old(buffer) + EnumTexts(st, indentLevel, es)
    {
      for i := 0 to |es|
        invariant indentLevel == old(indentLevel)
        invariant buffer == old(buffer) + EnumTexts(st, indentLevel, es[..i])
      {
        ghost var b := buffer;
        PIndent();
        PEnum(es[i]);
        PNl();
        Wrapped(b, Indent(st, indentLevel), EnumText(st, indentLevel, es[i]), st.nl);
        assert es[..i + 1][..i] == es[..i];
        Assoc(old(buffer), EnumTexts(st, indentLevel, es[..i]),
              Line(st, indentLevel, EnumText(st, indentLevel, es[i])));
      }
      assert es[..|es|] == es;
    }

    method PStructField(f: StructField)
      modifies this`buffer
      ensures buffer == old(buffer) + FieldText(st, indentLevel, f)
    {
      PComment(f.description, false);
      PIndent();
      PStr(FieldLine(f));
      Assoc(old(buffer), CommentText(st, indentLevel, f.description, false), Indent(st, indentLevel));
      Assoc(old(buffer), CommentText(st, indentLevel, f.description, false) + Indent(st, indentLevel), FieldLine(f));
    }

    method PStructFields(fs: seq<StructField>)
      modifies this`buffer
      ensures buffer == old(buffer) + FieldTexts(st, indentLevel, fs)
    {
      for i := 0 to |fs|
        invariant buffer == old(buffer) + FieldTexts(st, indentLevel, fs[..i])
      {
        ghost var b := buffer;
        PIndent();
        PStructField(fs[i]);
        PNl();
        Wrapped(b, Indent(st, indentLevel), FieldText(st, indentLevel, fs[i]), st.nl);
        assert fs[..i + 1][..i] == fs[..i];
        Assoc(old(buffer), FieldTexts(st, indentLevel, fs[..i]),
              Line(st, indentLevel, FieldText(st, indentLevel, fs[i])));
      }
      assert fs[..|fs|] == fs;
    }

    method PStruct(s: Struct)
      modifies this`buffer, this`indentLevel
      ensures indentLevel == old(indentLevel)
      ensures buffer == old(buffer) + StructText(st, indentLevel, s)
    {
      ghost var comment, head := CommentText(st, indentLevel, s.description, true),
          Line(st, indentLevel, StructHead(s));
      ghost var body, tail := FieldTexts(st, indentLevel + 1, s.fields), Line(st, indentLevel, "}");
      PComment(s.description, true);
      PLine(StructHead(s));
      indentLevel := indentLevel + 1;
      PStructFields(s.fields);
      indentLevel := indentLevel - 1;
      PLine("}");
      Assoc(old(buffer), comment, head);
      Assoc(old(buffer), comment + head, body);
      Assoc(old(buffer), comment + head + body, tail);
    }

    method PStructs(ss: seq<Struct>)
      modifies this`buffer, this`indentLevel
      ensures indentLevel == old(indentLevel)
      ensures buffer == old(buffer) + StructTexts(st, indentLevel, ss)
    {
      for i := 0 to |ss|
        invariant indentLevel == old(indentLevel)
        invariant buffer == old(buffer) + StructTexts(st, indentLevel, ss[..i])
      {
        ghost var b := buffer;
        PIndent();
        PStruct(ss[i]);
        PNl();
        Wrapped(b, Indent(st, indentLevel), StructText(st, indentLevel, ss[i]), st.nl);
        assert ss[..i + 1][..i] == ss[..i];
        Assoc(old(buffer), StructTexts(st, indentLevel, ss[..i]),
              Line(st, indentLevel, StructText(st, indentLevel, ss[i])));
      }
      assert ss[..|ss|] == ss;
    }

    method PItem(c: Contract, item: Item)
      modifies this`buffer, this`indentLevel
      ensures indentLevel == old(indentLevel)
      ensures buffer == old(buffer) + ItemText(st, indentLevel, c, item)
    {
      match item {
        case ErrorItem => PDeclaredAll(c.errors);
        case EventItem => PDeclaredAll(c.events);
        case EnumItem => PEnums(c.enums);
        case StructItem => PStructs(c.structs);
        case FunctionItem => PDeclaredAll(c.functions);
      }
    }

    method PItems(c: Contract)
      modifies this`buffer, this`indentLevel
      ensures indentLevel == old(indentLevel)
      ensures buffer == old(buffer) + ItemsText(st, indentLevel, c, st.order)
    {
      for i := 0 to |st.order|
        invariant indentLevel == old(indentLevel)
        invariant buffer == old(buffer) + ItemsText(st, indentLevel, c, st.order[..i])
      {
        PItem(c, st.order[i]);
        assert st.order[..i + 1][..i] == st.order[..i];
        Assoc(old(buffer), ItemsText(st, indentLevel, c, st.order[..i]), ItemText(st, indentLevel, c, st.order[i]));
      }
      assert st.order[..|st.order|] == st.order;
    }

    method PPrelude()
      modifies this`buffer
      ensures buffer == old(buffer) + PreludeText(st)
    {
      PStr(LicenseLine(st));
      PNl();
      PStr(PragmaLine(st));
      PNl();
      PNl();
      Assoc(old(buffer), LicenseLine(st), st.nl);
      Assoc(old(buffer), LicenseLine(st) + st.nl, PragmaLine(st));
      Assoc(old(buffer), LicenseLine(st) + st.nl + PragmaLine(st), st.nl);
      Assoc(old(buffer), LicenseLine(st) + st.nl + PragmaLine(st) + st.nl, st.nl);
    }

    method PHead(name: string, inherits: string)
      modifies this`buffer
      ensures buffer == old(buffer) + HeadText(name, inherits)
    {
      PStr("interface ");
      var stripped := Strip(name);
      if stripped != "" {
        PStr(stripped);
        PStr(" ");
      }
      ghost var named := if stripped != "" then stripped + " " else "";
      assert buffer == old(buffer) + ("interface " + named);
      ghost var b := buffer;
      if inherits != "" {
        PStr("is ");
        PStr(inherits);
        PStr(" ");
      }
      ghost var bases := if inherits != "" then "is " + inherits + " " else "";
      assert buffer == b + bases;
      Assoc(old(buffer), "interface " + named, bases);
    }

    method POpen(name: string, inherits: string)
      modifies this`buffer
      ensures buffer == old(buffer) + OpenText(st, name, inherits)
    {
      PHead(name, inherits);
      PStr("{");
      PNl();
      Assoc(old(buffer), HeadText(name, inherits), "{");
      Assoc(old(buffer), HeadText(name, inherits) + "{", st.nl);
    }

    method PClose()
      modifies this`buffer
      ensures buffer == old(buffer) + CloseText(st)
    {
      PStr("}");
      PNl();
      Assoc(old(buffer), "}", st.nl);
    }

    /** Appends the contract's text to the buffer, changes nothing before it, and restores the indentation level
        through every nested call. */
    method PContract(c: Contract, name: string, inherits: string)
      modifies this`buffer, this`indentLevel
      ensures indentLevel == old(indentLevel)
      ensures buffer == old(buffer) + ContractText(st, prelude, indentLevel, c, name, inherits)
    {
      if prelude { PPrelude(); }
      ghost var top := if prelude then PreludeText(st) else "";
      assert buffer == old(buffer) + top;
      POpen(name, inherits);
      Assoc(old(buffer), top, OpenText(st, name, inherits));
      indentLevel := indentLevel + 1;
      PItems(c);
      Assoc(old(buffer), top + OpenText(st, name, inherits), ItemsText(st, indentLevel, c, st.order));
      indentLevel := indentLevel - 1;
      PClose();
      Assoc(old(buffer), top + OpenText(st, name, inherits) + ItemsText(st, indentLevel + 1, c, st.order),
            CloseText(st));
    }
  }

  lemma Assoc(a: string, b: string, c: string)
    ensures (a + b) + c == a + (b + c)
  {
  }

  lemma Wrapped(a: string, b: string, c: string, d: string)
    ensures ((a + b) + c) + d == a + (b + c + d)
  {
    Assoc(a, b, c);
    Assoc(a, b + c, d);
  }
}
