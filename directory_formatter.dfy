/**
 * The directory renderer (src/formatter/directory.ts): the walked tree drawn with
 * box-drawing connectors, optionally with each file's symbols under it, and a
 * truncation notice at the end when the walk stopped early.
 */
module DirectoryFormatter {
  import opened Wrappers
  import opened Sequences
  import opened Strings
  import opened Types
  import opened KindPrefixes
  import opened FileFormatter
  import opened Walker

  datatype FormatOptions = FormatOptions(includeSymbols: bool, includeComments: bool)

  /** The connector of an entry that has later siblings. */
  const BranchConnector: string := "\U{251C}\U{2500}\U{2500} "
  /** The connector of the last entry of a listing. */
  const LastConnector: string := "\U{2514}\U{2500}\U{2500} "
  /** The guide column below an entry that has later siblings. */
  const PipeGuide: string := "\U{2502}   "
  /** The guide column below the last entry of a listing. */
  const SpaceGuide: string := "    "

  function Connector(isLast: bool): string {
    if isLast then LastConnector else BranchConnector
  }

  function Guide(isLast: bool): string {
    if isLast then SpaceGuide else PipeGuide
  }

  /** A directory is shown with a trailing `/`. */
  function DisplayName(e: WalkEntry): string {
    if e.isDirectory then e.name + "/" else e.name
  }

  /** A number as a template literal prints it. */
  function IntToString(n: int): string {
    if n < 0 then "-" + NatToString(-n) else NatToString(n)
  }

  function TruncationNotice(totalEntries: int): string {
    "[Truncated: showing " + IntToString(totalEntries) +
    " entries. Use 'depth' or 'ignore' parameters to narrow scope.]"
  }

  /** The notice reports the count: between its fixed text sits a run of decimal digits
      without a leading zero whose value is `totalEntries`. */
  lemma NoticeReportsCount(totalEntries: int)
    ensures totalEntries >= 0 ==>
              exists digits: string ::
                && TruncationNotice(totalEntries) == "[Truncated: showing " + digits +
                     " entries. Use 'depth' or 'ignore' parameters to narrow scope.]"
                && |digits| >= 1 && (forall i :: 0 <= i < |digits| ==> '0' <= digits[i] <= '9')
                && (|digits| > 1 ==> digits[0] != '0')
                && DigitsValue(digits) == totalEntries
  {
    if totalEntries >= 0 {
      var digits := NatToString(totalEntries);
      assert IntToString(totalEntries) == digits;
      assert |digits| > 1 ==> totalEntries >= 10;
    }
  }

  /** What a symbol shows: the signature for a function or method that has one, and
      otherwise the kind label and the name; visibility is never shown. */
  function SymbolDisplay(s: CodeSymbol): string {
    if (s.kind == Function || s.kind == Method) && Truthy(s.signature) then s.signature.value
    else LocalKindLabel(s.kind) + " " + s.name
  }

  /** The line showing `s` after `lead`. */
  function SymbolRow(s: CodeSymbol, lead: string): string {
    lead + SymbolDisplay(s)
  }

  /** One symbol under `prefix`: its doc lines, its display line two spaces in, then its
      children two spaces further in. */
  function TreeSymbolLines(s: CodeSymbol, prefix: string, c: bool): seq<string> {
    SymbolDocLines(s, prefix + "  ", c) + [SymbolRow(s, prefix + "  ")] +
    match s.children
    case NoChildren => []
    case Children(items) => TreeForestLines(items, prefix + "  ", c)
  }

  /** `formatSymbols(symbols, prefix, includeComments)`. */
  function TreeForestLines(forest: seq<CodeSymbol>, prefix: string, c: bool): seq<string> {
    if forest == [] then [] else TreeSymbolLines(forest[0], prefix, c) +
                                 TreeForestLines(forest[1..], prefix, c)
  }

  /** The symbol lines under a file entry: only for a file whose path has symbols, and
      only when symbols are on. */
  function FileSymbolLines(e: WalkEntry, prefix: string, symbols: map<string, FileSymbols>,
                           opts: FormatOptions): seq<string> {
    if !e.isDirectory && opts.includeSymbols && e.path in symbols
    then TreeForestLines(symbols[e.path].symbols, prefix, opts.includeComments)
    else []
  }

  /** The first line of an entry: the bare name for the root, the prefix and the
      connector otherwise. */
  function HeadLine(e: WalkEntry, prefix: string, isLast: bool, isRoot: bool): string {
    if isRoot then DisplayName(e) else prefix + Connector(isLast) + DisplayName(e)
  }

  /** The prefix of everything below an entry: empty below the root, and the entry's
      prefix extended by a guide column otherwise. */
  function InnerPrefix(prefix: string, isLast: bool, isRoot: bool): string {
    if isRoot then "" else prefix + Guide(isLast)
  }

  /** `formatEntry(entry, prefix, isLast, isRoot)`. */
  function EntryLines(e: WalkEntry, prefix: string, isLast: bool, isRoot: bool,
                      symbols: map<string, FileSymbols>, opts: FormatOptions): seq<string>
    decreases e, 1, 1
  {
    var inner := InnerPrefix(prefix, isLast, isRoot);
    [HeadLine(e, prefix, isLast, isRoot)] + FileSymbolLines(e, inner, symbols, opts) +
    EntryChildLines(e, inner, symbols, opts)
  }

  /** The children part of `EntryLines`. */
  function EntryChildLines(e: WalkEntry, inner: string, symbols: map<string, FileSymbols>,
                           opts: FormatOptions): seq<string>
    decreases e, 1, 0
  {
    match e.children
    case NoEntries => []
    case Listed(items) => ChildRows(items, inner, |items|, symbols, opts)
  }

  /** The first `k` children of a listing, the one at `|items| - 1` drawn as the last. */
  function ChildRows(items: seq<WalkEntry>, prefix: string, k: nat,
                     symbols: map<string, FileSymbols>, opts: FormatOptions): seq<string>
    requires k <= |items|
    decreases items, 0, k
  {
    if k == 0 then []
    else ChildRows(items, prefix, k - 1, symbols, opts) +
         EntryLines(items[k - 1], prefix, k == |items|, false, symbols, opts)
  }

  /** Every line `formatDirectory` produces. */
  function DirectoryLines(result: WalkResult, symbols: map<string, FileSymbols>,
                          opts: FormatOptions): seq<string> {
    EntryLines(result.root, "", true, true, symbols, opts) +
    (if result.truncated then ["", TruncationNotice(result.totalEntries)] else [])
  }

  /** The `display` string of `formatSymbols`, rebuilt by reassignment. */
  method BuildDisplay(symbol: CodeSymbol) returns (display: string)
    ensures display == SymbolDisplay(symbol)
  {
    display := LocalKindLabel(symbol.kind) + " " + symbol.name;
    if (symbol.kind == Function || symbol.kind == Method) && Truthy(symbol.signature) {
      display := symbol.signature.value;
    }
  }

  /** The body of the loop of `formatSymbols` for one symbol. */
  method FormatTreeSymbol(symbol: CodeSymbol, prefix: string, includeComments: bool, lines: seq<string>)
    returns (out: seq<string>)
    ensures out == lines + TreeSymbolLines(symbol, prefix, includeComments)
    decreases symbol
  {
    var indent := prefix + "  ";
    out := PushDocLines(symbol, indent, includeComments, lines);
    ghost var docs := SymbolDocLines(symbol, indent, includeComments);
    var display := BuildDisplay(symbol);
    out := out + [indent + display];
    ghost var head := docs + [SymbolRow(symbol, indent)];
    AppendAssoc<string>(lines, docs, [SymbolRow(symbol, indent)]);
    ghost var afterHead := out;
    ghost var rest: seq<string> := [];
    if symbol.children.Children? && |symbol.children.items| > 0 {
      rest := TreeForestLines(symbol.children.items, indent, includeComments);
      out := FormatTreeSymbols(symbol.children.items, indent, includeComments, out);
    } else {
      assert afterHead + rest == afterHead;
    }
    AppendAssoc<string>(lines, head, rest);
    TreeSymbolLinesUnfold(symbol, prefix, includeComments);
    assert TreeSymbolLines(symbol, prefix, includeComments) == head + rest;
  }

  /** `formatSymbols(symbols, prefix, includeComments)`, appending to `lines`. */
  method FormatTreeSymbols(items: seq<CodeSymbol>, prefix: string, includeComments: bool, lines: seq<string>)
    returns (out: seq<string>)
    ensures out == lines + TreeForestLines(items, prefix, includeComments)
    decreases items
  {
    out := lines;
    for j := 0 to |items|
      invariant out == lines + TreeForestLines(items[..j], prefix, includeComments)
    {
      TreeForestLinesSnoc(items, j, prefix, includeComments);
      out := FormatTreeSymbol(items[j], prefix, includeComments, out);
      AppendAssoc<string>(lines, TreeForestLines(items[..j], prefix, includeComments),
                          TreeSymbolLines(items[j], prefix, includeComments));
    }
    assert items[..|items|] == items;
  }

  lemma {:induction false} TreeForestLinesAppend(a: seq<CodeSymbol>, b: seq<CodeSymbol>, prefix: string, c: bool)
    ensures TreeForestLines(a + b, prefix, c) == TreeForestLines(a, prefix, c) + TreeForestLines(b, prefix, c)
  {
    if a == [] {
      assert a + b == b;
    } else {
      assert (a + b)[0] == a[0];
      assert (a + b)[1..] == a[1..] + b;
      TreeForestLinesAppend(a[1..], b, prefix, c);
    }
  }

  lemma TreeForestLinesSnoc(items: seq<CodeSymbol>, j: nat, prefix: string, c: bool)
    requires j < |items|
    ensures TreeForestLines(items[..j + 1], prefix, c) ==
            TreeForestLines(items[..j], prefix, c) + TreeSymbolLines(items[j], prefix, c)
  {
    TreeForestLinesAppend(items[..j], [items[j]], prefix, c);
    assert items[..j + 1] == items[..j] + [items[j]];
    assert TreeForestLines([items[j]], prefix, c) == TreeSymbolLines(items[j], prefix, c);
  }

  /** `TreeSymbolLines` with the children part written as `formatSymbols` tests it. */
  lemma TreeSymbolLinesUnfold(s: CodeSymbol, prefix: string, c: bool)
    ensures TreeSymbolLines(s, prefix, c) ==
            SymbolDocLines(s, prefix + "  ", c) + [SymbolRow(s, prefix + "  ")] +
            (if s.children.Children? && |s.children.items| > 0
             then TreeForestLines(s.children.items, prefix + "  ", c) else [])
  {
  }

  /** `formatEntry`, appending to the shared `lines` array. */
  method FormatEntry(entry: WalkEntry, prefix: string, isLast: bool, isRoot: bool,
                     symbols: map<string, FileSymbols>, opts: FormatOptions, lines: seq<string>)
    returns (out: seq<string>)
    ensures out == lines + EntryLines(entry, prefix, isLast, isRoot, symbols, opts)
    decreases entry, 1, 1
  {
    var inner := if isRoot then "" else prefix + (if isLast then SpaceGuide else PipeGuide);
    assert inner == InnerPrefix(prefix, isLast, isRoot);
    out := PushHead(entry, prefix, isLast, isRoot, lines);
    ghost var afterHead := out;
    out := PushFileSymbols(entry, inner, symbols, opts, out);
    ghost var afterSymbols := out;
    out := PushChildren(entry, inner, symbols, opts, out);
    ghost var head := [HeadLine(entry, prefix, isLast, isRoot)];
    ghost var syms := FileSymbolLines(entry, inner, symbols, opts);
    ghost var rest := EntryChildLines(entry, inner, symbols, opts);
    assert out == lines + head + syms + rest;
  }

  /** The symbol lines of a file entry, when symbols are on and the file has some. */
  method PushFileSymbols(entry: WalkEntry, inner: string, symbols: map<string, FileSymbols>,
                         opts: FormatOptions, lines: seq<string>)
    returns (out: seq<string>)
    ensures out == lines + FileSymbolLines(entry, inner, symbols, opts)
  {
    out := lines;
    if !entry.isDirectory && opts.includeSymbols && entry.path in symbols {
      out := FormatTreeSymbols(symbols[entry.path].symbols, inner, opts.includeComments, out);
    }
  }

  /** The children of an entry, when it has a non-empty listing. */
  method PushChildren(entry: WalkEntry, inner: string, symbols: map<string, FileSymbols>,
                      opts: FormatOptions, lines: seq<string>)
    returns (out: seq<string>)
    ensures out == lines + EntryChildLines(entry, inner, symbols, opts)
    decreases entry, 1, 0
  {
    out := lines;
    if entry.children.Listed? && |entry.children.items| > 0 {
      out := FormatChildren(entry.children.items, inner, symbols, opts, out);
    }
  }

  /** The first line `formatEntry` pushes. */
  method PushHead(entry: WalkEntry, prefix: string, isLast: bool, isRoot: bool, lines: seq<string>)
    returns (out: seq<string>)
    ensures out == lines + [HeadLine(entry, prefix, isLast, isRoot)]
  {
    var displayName := if entry.isDirectory then entry.name + "/" else entry.name;
    if isRoot {
      out := lines + [displayName];
    } else {
      out := lines + [prefix + (if isLast then LastConnector else BranchConnector) + displayName];
    }
  }

  /** The loop of `formatEntry` over the children, the final one drawn as the last. */
  method FormatChildren(items: seq<WalkEntry>, prefix: string,
                        symbols: map<string, FileSymbols>, opts: FormatOptions, lines: seq<string>)
    returns (out: seq<string>)
    ensures out == lines + ChildRows(items, prefix, |items|, symbols, opts)
    decreases items, 0, |items|
  {
    out := lines;
    for i := 0 to |items|
      invariant out == lines + ChildRows(items, prefix, i, symbols, opts)
    {
      var childIsLast := i == |items| - 1;
      out := FormatEntry(items[i], prefix, childIsLast, false, symbols, opts, out);
      ghost var own := EntryLines(items[i], prefix, childIsLast, false, symbols, opts);
      assert ChildRows(items, prefix, i + 1, symbols, opts) == ChildRows(items, prefix, i, symbols, opts) + own;
      AppendAssoc<string>(lines, ChildRows(items, prefix, i, symbols, opts), own);
    }
  }

  /** `formatDirectory(result, fileSymbolsMap, options)`. */
  method FormatDirectory(result: WalkResult, symbols: map<string, FileSymbols>, opts: FormatOptions)
    returns (out: string)
    ensures out == Join(DirectoryLines(result, symbols, opts), "\n")
  {
    var lines := FormatEntry(result.root, "", true, true, symbols, opts, []);
    assert [] + EntryLines(result.root, "", true, true, symbols, opts) == lines;
    ghost var tree := lines;
    if result.truncated {
      var notice := TruncationNotice(result.totalEntries);
      lines := lines + [""];
      lines := lines + [notice];
      assert lines == tree + ["", notice];
      assert DirectoryLines(result, symbols, opts) == tree + ["", notice];
      assert DirectoryLines(result, symbols, opts) == lines;
    } else {
      assert DirectoryLines(result, symbols, opts) == tree + [];
      assert DirectoryLines(result, symbols, opts) == lines;
    }
    out := Join(lines, "\n");
  }

  /** Symbols add one line each, plus, with comments on, one per docblock piece. */
  lemma {:induction false} TreeForestLinesCount(forest: seq<CodeSymbol>, prefix: string, c: bool)
    ensures |TreeForestLines(forest, prefix, c)| == Size(forest) + (if c then DocLineCount(forest) else 0)
    decreases forest, 1
  {
    if forest != [] {
      TreeSymbolLinesCount(forest[0], prefix, c);
      TreeForestLinesCount(forest[1..], prefix, c);
    }
  }

  lemma {:induction false} TreeSymbolLinesCount(s: CodeSymbol, prefix: string, c: bool)
    ensures |TreeSymbolLines(s, prefix, c)| == SymbolSize(s) + (if c then SymbolDocLineCount(s) else 0)
    decreases s, 0
  {
    match s.children
    case NoChildren =>
    case Children(items) => TreeForestLinesCount(items, prefix + "  ", c);
  }

  lemma PrefixOfLonger(p: string, q: string, line: string)
    requires p + q <= line
    ensures p <= line
  {
    assert line[..|p|] == (p + q)[..|p|];
  }

  /** Every symbol line, doc lines included, starts with the prefix and two spaces:
      symbols carry no connectors, only the guide columns of the entry above them. */
  lemma {:induction false} TreeForestLinesIndented(forest: seq<CodeSymbol>, prefix: string, c: bool)
    ensures forall i :: 0 <= i < |TreeForestLines(forest, prefix, c)| ==>
              prefix + "  " <= TreeForestLines(forest, prefix, c)[i]
    decreases forest, 1
  {
    if forest != [] {
      TreeSymbolLinesIndented(forest[0], prefix, c);
      TreeForestLinesIndented(forest[1..], prefix, c);
      var a := TreeSymbolLines(forest[0], prefix, c);
      var b := TreeForestLines(forest[1..], prefix, c);
      assert TreeForestLines(forest, prefix, c) == a + b;
      forall i | 0 <= i < |a + b| ensures prefix + "  " <= (a + b)[i] {
        if i >= |a| {
          assert (a + b)[i] == b[i - |a|];
        }
      }
    }
  }

  lemma {:induction false} TreeSymbolLinesIndented(s: CodeSymbol, prefix: string, c: bool)
    ensures forall i :: 0 <= i < |TreeSymbolLines(s, prefix, c)| ==>
              prefix + "  " <= TreeSymbolLines(s, prefix, c)[i]
    decreases s, 0
  {
    var indent := prefix + "  ";
    var docs := SymbolDocLines(s, indent, c);
    var rest := match s.children
                case NoChildren => []
                case Children(items) => TreeForestLines(items, indent, c);
    var all := docs + [SymbolRow(s, indent)] + rest;
    assert TreeSymbolLines(s, prefix, c) == all;
    if s.children.Children? {
      TreeForestLinesIndented(s.children.items, indent, c);
    }
    forall i | 0 <= i < |all| ensures indent <= all[i] {
      if i < |docs| {
        assert all[i] == indent + "/// " + Split(s.docblock.value, '\n')[i];
        assert all[i] == indent + ("/// " + Split(s.docblock.value, '\n')[i]);
      } else if i == |docs| {
      } else {
        assert all[i] == rest[i - |docs| - 1];
        PrefixOfLonger(indent, "  ", all[i]);
      }
    }
  }

  /** Line `i` shows symbol `i` at nesting depth `depths[i]` below `prefix`. */
  predicate RowsMatch(lines: seq<string>, syms: seq<CodeSymbol>, depths: seq<nat>, prefix: string) {
    && |lines| == |syms| == |depths|
    && forall i :: 0 <= i < |syms| ==>
         lines[i] == SymbolRow(syms[i], prefix + "  " + Spaces(2 * depths[i]))
  }

  lemma RowsMatchAppend(a: seq<string>, fa: seq<CodeSymbol>, da: seq<nat>,
                        b: seq<string>, fb: seq<CodeSymbol>, db: seq<nat>, prefix: string)
    requires RowsMatch(a, fa, da, prefix) && RowsMatch(b, fb, db, prefix)
    ensures RowsMatch(a + b, fa + fb, da + db, prefix)
  {
    forall i | 0 <= i < |fa + fb|
      ensures (a + b)[i] == SymbolRow((fa + fb)[i], prefix + "  " + Spaces(2 * (da + db)[i]))
    {
      if i >= |fa| {
        assert (a + b)[i] == b[i - |fa|];
        assert (fa + fb)[i] == fb[i - |fa|];
        assert (da + db)[i] == db[i - |fa|];
      } else {
        assert (a + b)[i] == a[i];
        assert (fa + fb)[i] == fa[i];
        assert (da + db)[i] == da[i];
      }
    }
  }

  /** With comments off, symbol `i` in pre-order is shown on line `i`, two spaces past the
      prefix plus two more per nesting level. */
  lemma {:induction false} TreeForestLinesPreorder(forest: seq<CodeSymbol>, prefix: string)
    ensures RowsMatch(TreeForestLines(forest, prefix, false), FlattenAll(forest), Depths(forest), prefix)
    decreases forest, 2
  {
    if forest != [] {
      TreeSymbolLinesPreorder(forest[0], prefix);
      TreeForestLinesPreorder(forest[1..], prefix);
      RowsMatchAppend(TreeSymbolLines(forest[0], prefix, false), Flatten(forest[0]), SymbolDepths(forest[0]),
                      TreeForestLines(forest[1..], prefix, false), FlattenAll(forest[1..]), Depths(forest[1..]),
                      prefix);
    }
  }

  lemma {:induction false} TreeSymbolLinesPreorder(s: CodeSymbol, prefix: string)
    ensures RowsMatch(TreeSymbolLines(s, prefix, false), Flatten(s), SymbolDepths(s), prefix)
    decreases s, 1
  {
    var indent := prefix + "  ";
    assert SymbolDocLines(s, indent, false) == [];
    assert SymbolRow(Strip(s), indent + Spaces(0)) == SymbolRow(s, indent);
    match s.children
    case NoChildren =>
      assert TreeSymbolLines(s, prefix, false) == [SymbolRow(s, indent)];
    case Children(items) =>
      var rest := TreeForestLines(items, indent, false);
      assert TreeSymbolLines(s, prefix, false) == [SymbolRow(s, indent)] + rest;
      TreeKidsPreorder(s, prefix);
      forall i | 0 <= i < |Flatten(s)|
        ensures ([SymbolRow(s, indent)] + rest)[i] ==
                SymbolRow(Flatten(s)[i], indent + Spaces(2 * SymbolDepths(s)[i]))
      {
        if i > 0 {
          assert ([SymbolRow(s, indent)] + rest)[i] == rest[i - 1];
        }
      }
  }

  /** The children part of `TreeSymbolLinesPreorder`: one level deeper than `s`. */
  lemma {:induction false} TreeKidsPreorder(s: CodeSymbol, prefix: string)
    requires s.children.Children?
    ensures |TreeForestLines(s.children.items, prefix + "  ", false)| == |Flatten(s)| - 1 == |SymbolDepths(s)| - 1
    ensures forall i :: 1 <= i < |Flatten(s)| ==>
              TreeForestLines(s.children.items, prefix + "  ", false)[i - 1] ==
              SymbolRow(Flatten(s)[i], prefix + "  " + Spaces(2 * SymbolDepths(s)[i]))
    decreases s, 0
  {
    var indent := prefix + "  ";
    var items := s.children.items;
    TreeForestLinesPreorder(items, indent);
    FlattenAllSize(items);
    var rest := TreeForestLines(items, indent, false);
    assert Flatten(s) == [Strip(s)] + FlattenAll(items);
    assert SymbolDepths(s) == [0] + Deeper(Depths(items));
    forall i | 1 <= i < |Flatten(s)|
      ensures rest[i - 1] == SymbolRow(Flatten(s)[i], indent + Spaces(2 * SymbolDepths(s)[i]))
    {
      KidRow(s, indent, i);
    }
  }

  /** Row `i - 1` of the children's lines is the `i`-th symbol of `Flatten(s)`, one level
      deeper than within the children. */
  lemma KidRow(s: CodeSymbol, indent: string, i: nat)
    requires s.children.Children?
    requires RowsMatch(TreeForestLines(s.children.items, indent, false), FlattenAll(s.children.items),
                       Depths(s.children.items), indent)
    requires Flatten(s) == [Strip(s)] + FlattenAll(s.children.items)
    requires SymbolDepths(s) == [0] + Deeper(Depths(s.children.items))
    requires 1 <= i < |Flatten(s)|
    ensures TreeForestLines(s.children.items, indent, false)[i - 1] ==
            SymbolRow(Flatten(s)[i], indent + Spaces(2 * SymbolDepths(s)[i]))
  {
    var items := s.children.items;
    var d := Depths(items)[i - 1];
    SpacesStep(indent, d);
    assert SymbolDepths(s)[i] == d + 1;
    assert Flatten(s)[i] == FlattenAll(items)[i - 1];
  }

  /** An entry's own line comes first; every line below it, its file's symbols and its
      whole subtree, starts with the entry's prefix extended by one guide column: a pipe
      while later siblings follow, blank below the last one (nothing below the root). */
  lemma {:induction false} EntryGuides(e: WalkEntry, prefix: string, isLast: bool, isRoot: bool,
                                       symbols: map<string, FileSymbols>, opts: FormatOptions)
    ensures |EntryLines(e, prefix, isLast, isRoot, symbols, opts)| >= 1
    ensures EntryLines(e, prefix, isLast, isRoot, symbols, opts)[0] == HeadLine(e, prefix, isLast, isRoot)
    ensures forall i :: 1 <= i < |EntryLines(e, prefix, isLast, isRoot, symbols, opts)| ==>
              InnerPrefix(prefix, isLast, isRoot) <= EntryLines(e, prefix, isLast, isRoot, symbols, opts)[i]
    decreases e, 1
  {
    var inner := InnerPrefix(prefix, isLast, isRoot);
    var syms := FileSymbolLines(e, inner, symbols, opts);
    var rest := EntryChildLines(e, inner, symbols, opts);
    var all := [HeadLine(e, prefix, isLast, isRoot)] + syms + rest;
    assert EntryLines(e, prefix, isLast, isRoot, symbols, opts) == all;
    if !e.isDirectory && opts.includeSymbols && e.path in symbols {
      TreeForestLinesIndented(symbols[e.path].symbols, inner, opts.includeComments);
      assert syms == TreeForestLines(symbols[e.path].symbols, inner, opts.includeComments);
    } else {
      assert syms == [];
    }
    if e.children.Listed? {
      ChildRowsPrefixed(e.children.items, inner, |e.children.items|, symbols, opts);
      assert rest == ChildRows(e.children.items, inner, |e.children.items|, symbols, opts);
    } else {
      assert rest == [];
    }
    forall i | 1 <= i < |all| ensures inner <= all[i] {
      if i <= |syms| {
        assert all[i] == syms[i - 1];
        PrefixOfLonger(inner, "  ", all[i]);
      } else {
        assert all[i] == rest[i - 1 - |syms|];
      }
    }
  }

  /** Every line of a listing's children starts with the listing's prefix. */
  lemma {:induction false} ChildRowsPrefixed(items: seq<WalkEntry>, prefix: string, k: nat,
                                             symbols: map<string, FileSymbols>, opts: FormatOptions)
    requires k <= |items|
    ensures forall i :: 0 <= i < |ChildRows(items, prefix, k, symbols, opts)| ==>
              prefix <= ChildRows(items, prefix, k, symbols, opts)[i]
    decreases items, 0, k
  {
    if k > 0 {
      ChildRowsPrefixed(items, prefix, k - 1, symbols, opts);
      var a := ChildRows(items, prefix, k - 1, symbols, opts);
      var isLast := k == |items|;
      var b := EntryLines(items[k - 1], prefix, isLast, false, symbols, opts);
      EntryGuides(items[k - 1], prefix, isLast, false, symbols, opts);
      forall i | 0 <= i < |a + b| ensures prefix <= (a + b)[i] {
        if i >= |a| {
          var j := i - |a|;
          assert (a + b)[i] == b[j];
          if j == 0 {
            PrefixOfLonger(prefix, Connector(isLast) + DisplayName(items[k - 1]), b[0]);
          } else {
            PrefixOfLonger(prefix, Guide(isLast), b[j]);
          }
        }
      }
    }
  }

  lemma ChildRowsGrow(items: seq<WalkEntry>, prefix: string, j: nat, k: nat,
                      symbols: map<string, FileSymbols>, opts: FormatOptions)
    requires j <= k <= |items|
    ensures ChildRows(items, prefix, j, symbols, opts) <= ChildRows(items, prefix, k, symbols, opts)
    decreases k
  {
    if j < k {
      ChildRowsGrow(items, prefix, j, k - 1, symbols, opts);
    }
  }

  /** Child `j` of a listing starts on the line after the lines of children `0..j`, with
      the last connector exactly when it is the final child. */
  lemma ChildHeads(items: seq<WalkEntry>, prefix: string, j: nat,
                   symbols: map<string, FileSymbols>, opts: FormatOptions)
    requires j < |items|
    ensures |ChildRows(items, prefix, j, symbols, opts)| < |ChildRows(items, prefix, |items|, symbols, opts)|
    ensures ChildRows(items, prefix, |items|, symbols, opts)[|ChildRows(items, prefix, j, symbols, opts)|] ==
            prefix + Connector(j == |items| - 1) + DisplayName(items[j])
  {
    var before := ChildRows(items, prefix, j, symbols, opts);
    var own := EntryLines(items[j], prefix, j + 1 == |items|, false, symbols, opts);
    EntryGuides(items[j], prefix, j + 1 == |items|, false, symbols, opts);
    assert ChildRows(items, prefix, j + 1, symbols, opts) == before + own;
    assert (before + own)[|before|] == own[0];
    ChildRowsGrow(items, prefix, j + 1, |items|, symbols, opts);
  }

  /** The entries of a walked tree in pre-order: each entry, then its listing. */
  function EntryPreorder(e: WalkEntry): seq<WalkEntry>
    decreases e, 1
  {
    [e] + match e.children
          case NoEntries => []
          case Listed(items) => PreorderAll(items)
  }

  function PreorderAll(items: seq<WalkEntry>): seq<WalkEntry>
    decreases items, 0
  {
    if items == [] then [] else EntryPreorder(items[0]) + PreorderAll(items[1..])
  }

  lemma {:induction false} PreorderAllSnoc(items: seq<WalkEntry>, x: WalkEntry)
    ensures PreorderAll(items + [x]) == PreorderAll(items) + EntryPreorder(x)
  {
    if items == [] {
      assert [x][1..] == [];
    } else {
      assert (items + [x])[0] == items[0];
      assert (items + [x])[1..] == items[1..] + [x];
      PreorderAllSnoc(items[1..], x);
    }
  }

  /** Pre-order lists each entry of the tree once. */
  lemma {:induction false} EntryPreorderSize(e: WalkEntry)
    ensures |EntryPreorder(e)| == EntrySize(e)
    decreases e, 1
  {
    match e.children
    case NoEntries =>
    case Listed(items) => PreorderAllSize(items);
  }

  lemma {:induction false} PreorderAllSize(items: seq<WalkEntry>)
    ensures |PreorderAll(items)| == CountEntries(items)
    decreases items, 0
  {
    if items != [] {
      EntryPreorderSize(items[0]);
      PreorderAllSize(items[1..]);
    }
  }

  lemma EndsWithName(lead: string, name: string)
    ensures EndsWith(lead + name, name)
  {
    assert (lead + name)[|lead + name| - |name|..] == name;
  }

  /** With symbols off, an entry renders as one line per entry of its subtree, in
      pre-order, each line ending with that entry's display name. */
  lemma {:induction false} EntryLinesPreorder(e: WalkEntry, prefix: string, isLast: bool, isRoot: bool,
                                              symbols: map<string, FileSymbols>, opts: FormatOptions)
    requires !opts.includeSymbols
    ensures |EntryLines(e, prefix, isLast, isRoot, symbols, opts)| == |EntryPreorder(e)|
    ensures forall i :: 0 <= i < |EntryPreorder(e)| ==>
              EndsWith(EntryLines(e, prefix, isLast, isRoot, symbols, opts)[i], DisplayName(EntryPreorder(e)[i]))
    decreases e, 1
  {
    var inner := InnerPrefix(prefix, isLast, isRoot);
    var head := HeadLine(e, prefix, isLast, isRoot);
    var rest := EntryChildLines(e, inner, symbols, opts);
    var below := EntryPreorder(e)[1..];
    assert EntryLines(e, prefix, isLast, isRoot, symbols, opts) == [head] + rest;
    ChildLinesPreorder(e, inner, symbols, opts);
    if isRoot {
      EndsWithName("", DisplayName(e));
      assert head == "" + DisplayName(e);
    } else {
      EndsWithName(prefix + Connector(isLast), DisplayName(e));
    }
    forall i | 1 <= i < |EntryPreorder(e)|
      ensures EndsWith(([head] + rest)[i], DisplayName(EntryPreorder(e)[i]))
    {
      assert ([head] + rest)[i] == rest[i - 1];
      assert EntryPreorder(e)[i] == below[i - 1];
    }
  }

  /** The children part of `EntryLinesPreorder`. */
  lemma {:induction false} ChildLinesPreorder(e: WalkEntry, inner: string,
                                              symbols: map<string, FileSymbols>, opts: FormatOptions)
    requires !opts.includeSymbols
    ensures |EntryChildLines(e, inner, symbols, opts)| == |EntryPreorder(e)| - 1
    ensures forall i :: 1 <= i < |EntryPreorder(e)| ==>
              EndsWith(EntryChildLines(e, inner, symbols, opts)[i - 1], DisplayName(EntryPreorder(e)[i]))
    decreases e, 0
  {
    match e.children
    case NoEntries =>
    case Listed(items) =>
      ChildRowsPreorder(items, inner, |items|, symbols, opts);
      assert items[..|items|] == items;
      var below := PreorderAll(items);
      assert EntryPreorder(e) == [e] + below;
      forall i | 1 <= i < |EntryPreorder(e)|
        ensures EndsWith(EntryChildLines(e, inner, symbols, opts)[i - 1], DisplayName(EntryPreorder(e)[i]))
      {
        assert EntryPreorder(e)[i] == below[i - 1];
      }
  }

  lemma {:induction false} ChildRowsPreorder(items: seq<WalkEntry>, prefix: string, k: nat,
                                             symbols: map<string, FileSymbols>, opts: FormatOptions)
    requires k <= |items| && !opts.includeSymbols
    ensures |ChildRows(items, prefix, k, symbols, opts)| == |PreorderAll(items[..k])|
    ensures forall i :: 0 <= i < |PreorderAll(items[..k])| ==>
              EndsWith(ChildRows(items, prefix, k, symbols, opts)[i], DisplayName(PreorderAll(items[..k])[i]))
    decreases items, 0, k
  {
    if k == 0 {
      assert items[..0] == [];
    } else {
      ChildRowsPreorder(items, prefix, k - 1, symbols, opts);
      var a := ChildRows(items, prefix, k - 1, symbols, opts);
      var b := EntryLines(items[k - 1], prefix, k == |items|, false, symbols, opts);
      EntryLinesPreorder(items[k - 1], prefix, k == |items|, false, symbols, opts);
      assert items[..k] == items[..k - 1] + [items[k - 1]];
      PreorderAllSnoc(items[..k - 1], items[k - 1]);
      NamesEndAppend(a, b, PreorderAll(items[..k - 1]), EntryPreorder(items[k - 1]));
    }
  }

  /** Each row ends with the display name of the entry at the same position. */
  predicate NamesEnd(rows: seq<string>, es: seq<WalkEntry>) {
    |rows| == |es| && forall i :: 0 <= i < |es| ==> EndsWith(rows[i], DisplayName(es[i]))
  }

  lemma NamesEndAppend(a: seq<string>, b: seq<string>, pa: seq<WalkEntry>, pb: seq<WalkEntry>)
    requires NamesEnd(a, pa) && NamesEnd(b, pb)
    ensures NamesEnd(a + b, pa + pb)
  {
    forall i | 0 <= i < |pa + pb| ensures EndsWith((a + b)[i], DisplayName((pa + pb)[i])) {
      if i >= |pa| {
        assert (a + b)[i] == b[i - |pa|];
        assert (pa + pb)[i] == pb[i - |pa|];
      } else {
        assert (a + b)[i] == a[i];
        assert (pa + pb)[i] == pa[i];
      }
    }
  }

  /** The whole rendering with symbols off: the tree, one line per walked entry in
      pre-order with the root's bare name first, and, exactly when the walk was
      truncated, an empty line and the notice reporting `totalEntries`. */
  lemma DirectoryTree(result: WalkResult, symbols: map<string, FileSymbols>, opts: FormatOptions)
    requires !opts.includeSymbols
    ensures |EntryPreorder(result.root)| == EntrySize(result.root)
    ensures |DirectoryLines(result, symbols, opts)| == EntrySize(result.root) + (if result.truncated then 2 else 0)
    ensures DirectoryLines(result, symbols, opts)[0] == DisplayName(result.root)
    ensures forall i :: 0 <= i < EntrySize(result.root) ==>
              EndsWith(DirectoryLines(result, symbols, opts)[i], DisplayName(EntryPreorder(result.root)[i]))
    ensures result.truncated ==>
              var lines := DirectoryLines(result, symbols, opts);
              lines[|lines| - 2] == "" && lines[|lines| - 1] == TruncationNotice(result.totalEntries)
  {
    EntryLinesPreorder(result.root, "", true, true, symbols, opts);
    EntryPreorderSize(result.root);
    EntryGuides(result.root, "", true, true, symbols, opts);
    var tree := EntryLines(result.root, "", true, true, symbols, opts);
    var footer := if result.truncated then ["", TruncationNotice(result.totalEntries)] else [];
    assert DirectoryLines(result, symbols, opts) == tree + footer;
    forall i | 0 <= i < |tree| ensures (tree + footer)[i] == tree[i] {
    }
  }

  /** A signature is shown only for functions and methods, and visibility never. */
  lemma SymbolDisplayTable(s: CodeSymbol)
    ensures (s.kind == Function || s.kind == Method) && Truthy(s.signature) ==>
              SymbolDisplay(s) == s.signature.value
    ensures !(s.kind == Function || s.kind == Method) ==>
              SymbolDisplay(s) == LocalKindLabel(s.kind) + " " + s.name
    ensures s.kind == Section ==> SymbolDisplay(s) == "section " + s.name
  {
  }
}
