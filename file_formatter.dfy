/**
 * The single-file renderer (src/formatter/file.ts): the path, an empty line, and the
 * symbols in pre-order, two spaces of indent per level, each optionally preceded by
 * its docblock as `/// ` lines.
 */
module FileFormatter {
  import opened Wrappers
  import opened Sequences
  import opened Strings
  import opened Types
  import opened KindPrefixes

  /** `n` spaces. */
  function Spaces(n: nat): (r: string)
    ensures |r| == n && forall i :: 0 <= i < n ==> r[i] == ' '
  {
    if n == 0 then "" else " " + Spaces(n - 1)
  }

  /** One `/// ` line per piece of the docblock. */
  function DocLines(pieces: seq<string>, indent: string): (r: seq<string>)
    ensures |r| == |pieces|
    ensures forall i :: 0 <= i < |pieces| ==> r[i] == indent + "/// " + pieces[i]
  {
    seq(|pieces|, i requires 0 <= i < |pieces| => indent + "/// " + pieces[i])
  }

  /** The declaration line: the signature when there is one, and otherwise the
      visibility (when set), the kind label and the name. */
  function Declaration(s: CodeSymbol, indent: string): string {
    if Truthy(s.signature) then indent + s.signature.value
    else
      var vis := if s.visibility.Some? then VisibilityName(s.visibility.value) + " " else "";
      indent + vis + LocalKindLabel(s.kind) + " " + s.name
  }

  /** The doc lines a symbol contributes, none unless comments are on and it has a docblock. */
  function SymbolDocLines(s: CodeSymbol, indent: string, includeComments: bool): seq<string> {
    if includeComments && Truthy(s.docblock) then DocLines(Split(s.docblock.value, '\n'), indent)
    else []
  }

  /** `formatSymbol(symbol, indent)`: its doc lines, its declaration, then its children
      two spaces further in. */
  function SymbolLines(s: CodeSymbol, indent: string, includeComments: bool): seq<string> {
    SymbolDocLines(s, indent, includeComments) + [Declaration(s, indent)] +
    match s.children
    case NoChildren => []
    case Children(items) => ForestLines(items, indent + "  ", includeComments)
  }

  /** The lines of a list of symbols formatted one after the other. */
  function ForestLines(forest: seq<CodeSymbol>, indent: string, includeComments: bool): seq<string> {
    if forest == [] then [] else SymbolLines(forest[0], indent, includeComments) +
                                 ForestLines(forest[1..], indent, includeComments)
  }

  /** Every line `formatFile` produces. */
  function FileLines(fs: FileSymbols, includeComments: bool): seq<string> {
    [fs.path, ""] + ForestLines(fs.symbols, "  ", includeComments)
  }

  lemma {:induction false} ForestLinesAppend(a: seq<CodeSymbol>, b: seq<CodeSymbol>, indent: string, c: bool)
    ensures ForestLines(a + b, indent, c) == ForestLines(a, indent, c) + ForestLines(b, indent, c)
  {
    if a == [] {
      assert a + b == b;
    } else {
      assert (a + b)[0] == a[0];
      assert (a + b)[1..] == a[1..] + b;
      ForestLinesAppend(a[1..], b, indent, c);
    }
  }

  /** The docblock loop of `formatSymbol`: one `/// ` line per piece. */
  method PushDocLines(symbol: CodeSymbol, indent: string, includeComments: bool, lines: seq<string>)
    returns (out: seq<string>)
    ensures out == lines + SymbolDocLines(symbol, indent, includeComments)
  {
    out := lines;
    if includeComments && Truthy(symbol.docblock) {
      var docLines := Split(symbol.docblock.value, '\n');
      for k := 0 to |docLines|
        invariant out == lines + DocLines(docLines[..k], indent)
      {
        assert DocLines(docLines[..k + 1], indent) ==
               DocLines(docLines[..k], indent) + [indent + "/// " + docLines[k]];
        out := out + [indent + "/// " + docLines[k]];
      }
      assert docLines[..|docLines|] == docLines;
    }
  }

  /** The `declaration` string of `formatSymbol`, rebuilt by reassignment. */
  method BuildDeclaration(symbol: CodeSymbol, indent: string) returns (declaration: string)
    ensures declaration == Declaration(symbol, indent)
  {
    declaration := "";
    ghost var vis := if symbol.visibility.Some? then VisibilityName(symbol.visibility.value) + " " else "";
    if symbol.visibility.Some? {
      declaration := declaration + VisibilityName(symbol.visibility.value) + " ";
    }
    assert declaration == vis;
    declaration := declaration + LocalKindLabel(symbol.kind) + " " + symbol.name;
    if Truthy(symbol.signature) {
      declaration := indent + symbol.signature.value;
    } else {
      PrependAssoc<char>(indent, vis, LocalKindLabel(symbol.kind), " ", symbol.name);
      declaration := indent + declaration;
    }
  }

  /** `formatSymbol`, appending to the shared `lines` array. */
  method FormatSymbol(symbol: CodeSymbol, indent: string, includeComments: bool, lines: seq<string>)
    returns (out: seq<string>)
    ensures out == lines + SymbolLines(symbol, indent, includeComments)
    decreases symbol
  {
    out := PushDocLines(symbol, indent, includeComments, lines);
    var declaration := BuildDeclaration(symbol, indent);
    out := out + [declaration];
    ghost var docs := SymbolDocLines(symbol, indent, includeComments);
    ghost var afterDecl := out;
    ghost var kids := if symbol.children.Children? && |symbol.children.items| > 0
                      then ForestLines(symbol.children.items, indent + "  ", includeComments) else [];
    if symbol.children.Children? && |symbol.children.items| > 0 {
      out := FormatSymbols(symbol.children.items, indent + "  ", includeComments, out);
    } else {
      assert afterDecl + kids == afterDecl;
    }
    SymbolLinesUnfold(symbol, indent, includeComments);
    AppendAssoc<string>(lines, docs, [declaration]);
    AppendAssoc<string>(lines, docs + [declaration], kids);
  }

  /** The loop of `formatFile` over the roots, and the loop of `formatSymbol` over the
      children: each symbol formatted in turn at the same indent. */
  method FormatSymbols(items: seq<CodeSymbol>, indent: string, includeComments: bool, lines: seq<string>)
    returns (out: seq<string>)
    ensures out == lines + ForestLines(items, indent, includeComments)
    decreases items
  {
    out := lines;
    for j := 0 to |items|
      invariant out == lines + ForestLines(items[..j], indent, includeComments)
    {
      ForestLinesSnoc(items, j, indent, includeComments);
      out := FormatSymbol(items[j], indent, includeComments, out);
      AppendAssoc<string>(lines, ForestLines(items[..j], indent, includeComments),
                          SymbolLines(items[j], indent, includeComments));
    }
    assert items[..|items|] == items;
  }

  lemma ForestLinesSnoc(items: seq<CodeSymbol>, j: nat, indent: string, c: bool)
    requires j < |items|
    ensures ForestLines(items[..j + 1], indent, c) ==
            ForestLines(items[..j], indent, c) + SymbolLines(items[j], indent, c)
  {
    ForestLinesAppend(items[..j], [items[j]], indent, c);
    assert items[..j + 1] == items[..j] + [items[j]];
    assert ForestLines([items[j]], indent, c) == SymbolLines(items[j], indent, c);
  }

  /** `SymbolLines` with the children part written as `formatSymbol` tests it. */
  lemma SymbolLinesUnfold(s: CodeSymbol, indent: string, c: bool)
    ensures SymbolLines(s, indent, c) ==
            SymbolDocLines(s, indent, c) + [Declaration(s, indent)] +
            (if s.children.Children? && |s.children.items| > 0
             then ForestLines(s.children.items, indent + "  ", c) else [])
  {
  }

  /** `formatFile(fileSymbols, { includeComments })`. */
  method FormatFile(fs: FileSymbols, includeComments: bool) returns (out: string)
    ensures out == Join(FileLines(fs, includeComments), "\n")
  {
    var lines := [fs.path, ""];
    lines := FormatSymbols(fs.symbols, "  ", includeComments, lines);
    out := Join(lines, "\n");
  }

  /** The nesting depth of each symbol of `FlattenAll(forest)`, roots at 0. */
  function Depths(forest: seq<CodeSymbol>): (r: seq<nat>) {
    if forest == [] then [] else SymbolDepths(forest[0]) + Depths(forest[1..])
  }

  function SymbolDepths(s: CodeSymbol): seq<nat> {
    [0] + match s.children
          case NoChildren => []
          case Children(items) => Deeper(Depths(items))
  }

  function Deeper(ds: seq<nat>): (r: seq<nat>)
    ensures |r| == |ds| && forall i :: 0 <= i < |ds| ==> r[i] == ds[i] + 1
  {
    seq(|ds|, i requires 0 <= i < |ds| => ds[i] + 1)
  }

  lemma {:induction false} SpacesStep(indent: string, d: nat)
    ensures indent + "  " + Spaces(2 * d) == indent + Spaces(2 * (d + 1))
  {
    assert Spaces(2 * (d + 1)) == " " + (" " + Spaces(2 * d));
  }

  /** With comments off, formatting a list of symbols gives exactly one line per symbol,
      in pre-order: the declaration of the `i`-th symbol of `FlattenAll(forest)`,
      indented two more spaces per nesting level. */
  lemma {:induction false} ForestLinesPreorder(forest: seq<CodeSymbol>, indent: string)
    ensures |ForestLines(forest, indent, false)| == |FlattenAll(forest)| == |Depths(forest)|
    ensures forall i :: 0 <= i < |FlattenAll(forest)| ==>
              ForestLines(forest, indent, false)[i] ==
              Declaration(FlattenAll(forest)[i], indent + Spaces(2 * Depths(forest)[i]))
    decreases forest, 1
  {
    if forest != [] {
      SymbolLinesPreorder(forest[0], indent);
      ForestLinesPreorder(forest[1..], indent);
      var a := SymbolLines(forest[0], indent, false);
      var b := ForestLines(forest[1..], indent, false);
      var fa := Flatten(forest[0]);
      var fb := FlattenAll(forest[1..]);
      var da := SymbolDepths(forest[0]);
      var db := Depths(forest[1..]);
      assert ForestLines(forest, indent, false) == a + b;
      assert FlattenAll(forest) == fa + fb;
      assert Depths(forest) == da + db;
      DeclarationsAtAppend(a, b, fa, fb, da, db, indent);
    }
  }

  /** Line `i` is the declaration of symbol `i` at depth `i`. */
  predicate DeclarationsAt(lines: seq<string>, syms: seq<CodeSymbol>, depths: seq<nat>, indent: string) {
    && |lines| == |syms| == |depths|
    && forall i :: 0 <= i < |syms| ==> lines[i] == Declaration(syms[i], indent + Spaces(2 * depths[i]))
  }

  lemma DeclarationsAtAppend(a: seq<string>, b: seq<string>, fa: seq<CodeSymbol>, fb: seq<CodeSymbol>,
                             da: seq<nat>, db: seq<nat>, indent: string)
    requires DeclarationsAt(a, fa, da, indent) && DeclarationsAt(b, fb, db, indent)
    ensures DeclarationsAt(a + b, fa + fb, da + db, indent)
  {
    forall i | 0 <= i < |fa + fb|
      ensures (a + b)[i] == Declaration((fa + fb)[i], indent + Spaces(2 * (da + db)[i]))
    {
      if i >= |fa| {
        assert (a + b)[i] == b[i - |fa|];
        assert (fa + fb)[i] == fb[i - |fa|];
        assert (da + db)[i] == db[i - |fa|];
      } else {
        assert (a + b)[i] == a[i] && (fa + fb)[i] == fa[i] && (da + db)[i] == da[i];
      }
    }
  }

  lemma {:induction false} SymbolLinesPreorder(s: CodeSymbol, indent: string)
    ensures |SymbolLines(s, indent, false)| == |Flatten(s)| == |SymbolDepths(s)|
    ensures forall i :: 0 <= i < |Flatten(s)| ==>
              SymbolLines(s, indent, false)[i] ==
              Declaration(Flatten(s)[i], indent + Spaces(2 * SymbolDepths(s)[i]))
    decreases s, 0
  {
    assert SymbolDocLines(s, indent, false) == [];
    assert Declaration(Strip(s), indent + Spaces(0)) == Declaration(s, indent);
    match s.children
    case NoChildren =>
      assert SymbolLines(s, indent, false) == [Declaration(s, indent)];
    case Children(items) =>
      var inner := indent + "  ";
      ForestLinesPreorder(items, inner);
      var rest := ForestLines(items, inner, false);
      assert SymbolLines(s, indent, false) == [Declaration(s, indent)] + rest;
      assert Flatten(s) == [Strip(s)] + FlattenAll(items);
      assert SymbolDepths(s) == [0] + Deeper(Depths(items));
      assert DeclarationsAt([Declaration(s, indent)], [Strip(s)], [0], indent);
      assert DeclarationsAt(rest, FlattenAll(items), Depths(items), inner);
      DeclarationsDeeper(rest, FlattenAll(items), Depths(items), indent);
      DeclarationsAtAppend([Declaration(s, indent)], rest, [Strip(s)], FlattenAll(items),
                           [0], Deeper(Depths(items)), indent);
  }

  /** Declarations two spaces further in are declarations one level deeper. */
  lemma DeclarationsDeeper(lines: seq<string>, syms: seq<CodeSymbol>, ds: seq<nat>, indent: string)
    requires DeclarationsAt(lines, syms, ds, indent + "  ")
    ensures DeclarationsAt(lines, syms, Deeper(ds), indent)
  {
    forall i | 0 <= i < |syms|
      ensures lines[i] == Declaration(syms[i], indent + Spaces(2 * Deeper(ds)[i]))
    {
      SpacesStep(indent, ds[i]);
    }
  }

  /** The rendering starts with the path and an empty line; with comments off, the
      remaining lines are one declaration per symbol of the forest, in pre-order and
      indented two spaces per nesting level (roots two spaces in). */
  lemma FileLinesShape(fs: FileSymbols)
    ensures FileLines(fs, false)[0] == fs.path && FileLines(fs, false)[1] == ""
    ensures |FileLines(fs, false)| == 2 + Size(fs.symbols)
    ensures |FlattenAll(fs.symbols)| == |Depths(fs.symbols)| == Size(fs.symbols)
    ensures forall i :: 0 <= i < |FlattenAll(fs.symbols)| ==>
              FileLines(fs, false)[i + 2] ==
              Declaration(FlattenAll(fs.symbols)[i], "  " + Spaces(2 * Depths(fs.symbols)[i]))
  {
    ForestLinesPreorder(fs.symbols, "  ");
    FlattenAllSize(fs.symbols);
    var rest := ForestLines(fs.symbols, "  ", false);
    assert FileLines(fs, false) == [fs.path, ""] + rest;
    forall i | 0 <= i < |FlattenAll(fs.symbols)|
      ensures FileLines(fs, false)[i + 2] ==
              Declaration(FlattenAll(fs.symbols)[i], "  " + Spaces(2 * Depths(fs.symbols)[i]))
    {
      assert FileLines(fs, false)[i + 2] == rest[i];
    }
  }

  /** The number of doc lines a forest contributes when comments are on. */
  function DocLineCount(forest: seq<CodeSymbol>): nat {
    if forest == [] then 0 else SymbolDocLineCount(forest[0]) + DocLineCount(forest[1..])
  }

  function SymbolDocLineCount(s: CodeSymbol): nat {
    (if Truthy(s.docblock) then |Split(s.docblock.value, '\n')| else 0) +
    match s.children
    case NoChildren => 0
    case Children(items) => DocLineCount(items)
  }

  /** Comments add exactly one line per `\n`-separated piece of each present docblock. */
  lemma {:induction false} ForestLinesCount(forest: seq<CodeSymbol>, indent: string, c: bool)
    ensures |ForestLines(forest, indent, c)| == Size(forest) + (if c then DocLineCount(forest) else 0)
    decreases forest, 1
  {
    if forest != [] {
      SymbolLinesCount(forest[0], indent, c);
      ForestLinesCount(forest[1..], indent, c);
    }
  }

  lemma {:induction false} SymbolLinesCount(s: CodeSymbol, indent: string, c: bool)
    ensures |SymbolLines(s, indent, c)| == SymbolSize(s) + (if c then SymbolDocLineCount(s) else 0)
    decreases s, 0
  {
    match s.children
    case NoChildren =>
    case Children(items) => ForestLinesCount(items, indent + "  ", c);
  }

  /** A section without signature or visibility renders with the word `section`, since
      this renderer's kind table has no `section` case. */
  lemma SectionDeclaration(s: CodeSymbol, indent: string)
    requires s.kind == Section && !Truthy(s.signature) && s.visibility.None?
    ensures Declaration(s, indent) == indent + "section " + s.name
  {
  }

  /** A signature replaces the whole declaration: visibility and kind are not shown. */
  lemma SignatureDeclaration(s: CodeSymbol, indent: string)
    requires Truthy(s.signature)
    ensures Declaration(s, indent) == indent + s.signature.value
  {
  }
}
