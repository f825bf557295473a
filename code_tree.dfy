/**
 * The `code_tree` tool (src/tools/code-tree.ts): a file is rendered on its own, a
 * directory is walked, its first files parsed, and the tree rendered with their
 * symbols; comments are on by default for a file and decided from the docblock sizes
 * for a directory.
 */
module CodeTree {
  import opened Wrappers
  import opened Strings
  import opened Types
  import opened OrderedMaps
  import opened Walker
  import opened FileFormatter
  import opened DirectoryFormatter

  const DefaultDepth: int := 10
  const MaxEntries: int := 2000
  const MaxFilesToParse: nat := 500
  /** In characters. */
  const AutoCommentsThreshold: int := 5000

  /** The tool's options; `None` is an omitted or `null` value. */
  datatype ToolOptions = ToolOptions(
    path: string,
    depth: Option<int>,
    symbols: Option<bool>,
    comments: Option<bool>,
    ignore: Option<seq<string>>)

  /**
   * What the tool reads from outside:
   * - `resolve`, `path.resolve` of the given path;
   * - `stat`, the file system node at an absolute path, `None` when `stat` throws;
   * - `ignoreRules`, the ignore manager's verdict on a relative path, for the root whose
   *   `.gitignore` it reads and the custom pattern list;
   * - `collate`, `a.localeCompare(b) <= 0`;
   * - `parse`, `parseFile` of the parser manager: the file's symbols, `None` for `null`.
   */
  datatype World = World(
    resolve: string -> string,
    stat: string -> Option<FsNode>,
    ignoreRules: string -> seq<string> -> string -> bool,
    collate: (string, string) -> bool,
    parse: string -> Option<FileSymbols>)

  /** The files of a walked tree in pre-order: every entry that is not a directory. */
  function Files(e: WalkEntry): seq<WalkEntry>
    decreases e, 1
  {
    (if e.isDirectory then [] else [e]) +
    match e.children
    case NoEntries => []
    case Listed(items) => FilesAll(items)
  }

  function FilesAll(items: seq<WalkEntry>): seq<WalkEntry>
    decreases items, 0
  {
    if items == [] then [] else Files(items[0]) + FilesAll(items[1..])
  }

  lemma {:induction false} FilesAllSnoc(items: seq<WalkEntry>, x: WalkEntry)
    ensures FilesAll(items + [x]) == FilesAll(items) + Files(x)
  {
    if items == [] {
      assert [x][1..] == [];
    } else {
      assert (items + [x])[0] == items[0];
      assert (items + [x])[1..] == items[1..] + [x];
      FilesAllSnoc(items[1..], x);
    }
  }

  /** `collectFiles(entry, result)`: appends the files below `entry`, itself included. */
  method CollectFiles(entry: WalkEntry, result: seq<WalkEntry>) returns (out: seq<WalkEntry>)
    ensures out == result + Files(entry)
    decreases entry
  {
    out := result;
    if !entry.isDirectory {
      out := out + [entry];
    }
    ghost var own := out;
    if entry.children.Listed? {
      var items := entry.children.items;
      for i := 0 to |items|
        invariant out == own + FilesAll(items[..i])
      {
        FilesAllSnoc(items[..i], items[i]);
        assert items[..i + 1] == items[..i] + [items[i]];
        out := CollectFiles(items[i], out);
      }
      assert items[..|items|] == items;
      assert Files(entry) == own[|result|..] + FilesAll(items);
    }
  }

  /** The entries of a list that are not directories, in order. */
  function NonDirectories(s: seq<WalkEntry>): (r: seq<WalkEntry>)
    ensures forall x :: x in r <==> x in s && !x.isDirectory
  {
    if s == [] then [] else (if s[0].isDirectory then [] else [s[0]]) + NonDirectories(s[1..])
  }

  lemma {:induction false} NonDirectoriesAppend(a: seq<WalkEntry>, b: seq<WalkEntry>)
    ensures NonDirectories(a + b) == NonDirectories(a) + NonDirectories(b)
  {
    if a == [] {
      assert a + b == b;
    } else {
      assert (a + b)[0] == a[0];
      assert (a + b)[1..] == a[1..] + b;
      NonDirectoriesAppend(a[1..], b);
    }
  }

  /** The collected files are exactly the non-directory entries of the tree, in the
      pre-order the renderer draws them in. */
  lemma {:induction false} FilesArePreorder(e: WalkEntry)
    ensures Files(e) == NonDirectories(EntryPreorder(e))
    decreases e, 1
  {
    var below := match e.children
                 case NoEntries => []
                 case Listed(items) => PreorderAll(items);
    assert EntryPreorder(e) == [e] + below;
    NonDirectoriesAppend([e], below);
    assert NonDirectories([e]) == (if e.isDirectory then [] else [e]);
    if e.children.Listed? {
      FilesAllArePreorder(e.children.items);
    }
  }

  lemma {:induction false} FilesAllArePreorder(items: seq<WalkEntry>)
    ensures FilesAll(items) == NonDirectories(PreorderAll(items))
    decreases items, 0
  {
    if items != [] {
      FilesArePreorder(items[0]);
      FilesAllArePreorder(items[1..]);
      NonDirectoriesAppend(EntryPreorder(items[0]), PreorderAll(items[1..]));
    }
  }

  /** Every entry of the tree that is not a directory is collected, and nothing else. */
  lemma FilesMembers(e: WalkEntry)
    ensures forall f :: f in Files(e) <==> f in EntryPreorder(e) && !f.isDirectory
  {
    FilesArePreorder(e);
  }

  /** `filesToParse.slice(0, MAX_FILES_TO_PARSE)`. */
  function Limit(files: seq<WalkEntry>): (r: seq<WalkEntry>)
    ensures |r| <= MaxFilesToParse && r <= files
    ensures |files| <= MaxFilesToParse ==> r == files
    ensures |files| > MaxFilesToParse ==> |r| == MaxFilesToParse
  {
    if |files| <= MaxFilesToParse then files else files[..MaxFilesToParse]
  }

  /** A parse that produced at least one symbol. */
  predicate HasSymbols(fs: Option<FileSymbols>) {
    fs.Some? && |fs.value.symbols| > 0
  }

  /** The `set` call, if any, that parsing `f` makes on the symbols map. */
  function Offer(f: WalkEntry, parse: string -> Option<FileSymbols>): Option<(string, FileSymbols)> {
    if HasSymbols(parse(f.path)) then Some((f.path, parse(f.path).value)) else None
  }

  function Offers(files: seq<WalkEntry>, parse: string -> Option<FileSymbols>)
    : (r: seq<Option<(string, FileSymbols)>>)
    ensures |r| == |files| && forall i :: 0 <= i < |files| ==> r[i] == Offer(files[i], parse)
  {
    seq(|files|, i requires 0 <= i < |files| => Offer(files[i], parse))
  }

  /** The symbols map after the parse loop over `files`. */
  function ParsedTable(files: seq<WalkEntry>, parse: string -> Option<FileSymbols>): OrderedMap<string, FileSymbols> {
    SetAll(Offers(files, parse))
  }

  /** The parse loop of `handleDirectory`. */
  method ParseFiles(files: seq<WalkEntry>, parse: string -> Option<FileSymbols>)
    returns (table: OrderedMap<string, FileSymbols>)
    ensures table == ParsedTable(files, parse)
  {
    table := Empty();
    for i := 0 to |files|
      invariant table == SetAll(Offers(files[..i], parse))
    {
      var fileSymbols := parse(files[i].path);
      ghost var xs := Offers(files[..i + 1], parse);
      assert xs[..i] == Offers(files[..i], parse);
      assert xs[i] == Offer(files[i], parse);
      if fileSymbols.Some? && |fileSymbols.value.symbols| > 0 {
        table := table.Set(files[i].path, fileSymbols.value);
      }
    }
    assert files[..|files|] == files;
  }

  /** A path is in the symbols map exactly when one of the parsed files has it and its
      parse produced symbols; it then holds that parse result. */
  lemma ParsedTableContents(files: seq<WalkEntry>, parse: string -> Option<FileSymbols>, path: string)
    ensures path in ParsedTable(files, parse).entries <==>
            (exists i :: 0 <= i < |files| && files[i].path == path) && HasSymbols(parse(path))
    ensures path in ParsedTable(files, parse).entries ==>
              ParsedTable(files, parse).entries[path] == parse(path).value &&
              |ParsedTable(files, parse).entries[path].symbols| > 0
  {
    var xs := Offers(files, parse);
    SetAllKeys(xs, path);
    if path in ParsedTable(files, parse).entries {
      SetAllValues(xs, path);
      var i :| SetsKey(xs, i, path) && SetAll(xs).entries[path] == xs[i].value.1;
      assert files[i].path == path;
    }
    if (exists i :: 0 <= i < |files| && files[i].path == path) && HasSymbols(parse(path)) {
      var i :| 0 <= i < |files| && files[i].path == path;
      assert SetsKey(xs, i, path);
    }
  }

  /** The length of a symbol's docblock, nothing when it is absent or empty. */
  function DocLength(s: CodeSymbol): nat {
    if Truthy(s.docblock) then |s.docblock.value| else 0
  }

  /** The docblock lengths of a list of symbols, added up. */
  function DocLengths(items: seq<CodeSymbol>): nat {
    if items == [] then 0 else DocLengths(items[..|items| - 1]) + DocLength(items[|items| - 1])
  }

  /** What the auto mode counts for one root symbol: its docblock and its direct
      children's. */
  function RootDocWeight(s: CodeSymbol): nat {
    DocLength(s) + DocLengths(Kids(s))
  }

  function ForestDocWeight(forest: seq<CodeSymbol>): nat {
    if forest == [] then 0
    else ForestDocWeight(forest[..|forest| - 1]) + RootDocWeight(forest[|forest| - 1])
  }

  /** The docblock length the auto mode adds up over the map's values, in key order. */
  function TableDocWeight(keys: seq<string>, entries: map<string, FileSymbols>): nat {
    if keys == [] then 0
    else TableDocWeight(keys[..|keys| - 1], entries) +
         (if keys[|keys| - 1] in entries then ForestDocWeight(entries[keys[|keys| - 1]].symbols) else 0)
  }

  /** The nested loops of the auto mode of `handleDirectory`. */
  method DocblockLength(table: OrderedMap<string, FileSymbols>) returns (docblockLength: nat)
    requires table.Valid()
    ensures docblockLength == TableDocWeight(table.keys, table.entries)
  {
    KeysListed(table);
    docblockLength := 0;
    for k := 0 to |table.keys|
      invariant docblockLength == TableDocWeight(table.keys[..k], table.entries)
    {
      TableDocWeightSnoc(table.keys, k, table.entries);
      var fileSymbols := table.entries[table.keys[k]];
      ghost var before := docblockLength;
      for j := 0 to |fileSymbols.symbols|
        invariant docblockLength == before + ForestDocWeight(fileSymbols.symbols[..j])
      {
        ForestDocWeightSnoc(fileSymbols.symbols, j);
        var symbol := fileSymbols.symbols[j];
        ghost var start := docblockLength;
        if Truthy(symbol.docblock) {
          docblockLength := docblockLength + |symbol.docblock.value|;
        }
        assert docblockLength == start + DocLength(symbol);
        if symbol.children.Children? {
          var children := symbol.children.items;
          ghost var own := docblockLength;
          for c := 0 to |children|
            invariant docblockLength == own + DocLengths(children[..c])
          {
            DocLengthsSnoc(children, c);
            if Truthy(children[c].docblock) {
              docblockLength := docblockLength + |children[c].docblock.value|;
            }
          }
          assert children[..|children|] == children;
        }
        assert docblockLength == start + RootDocWeight(symbol);
      }
      assert fileSymbols.symbols[..|fileSymbols.symbols|] == fileSymbols.symbols;
    }
    assert table.keys[..|table.keys|] == table.keys;
  }

  lemma DocLengthsSnoc(items: seq<CodeSymbol>, c: nat)
    requires c < |items|
    ensures DocLengths(items[..c + 1]) == DocLengths(items[..c]) + DocLength(items[c])
  {
    assert items[..c + 1][..c] == items[..c];
  }

  lemma ForestDocWeightSnoc(forest: seq<CodeSymbol>, j: nat)
    requires j < |forest|
    ensures ForestDocWeight(forest[..j + 1]) == ForestDocWeight(forest[..j]) + RootDocWeight(forest[j])
  {
    assert forest[..j + 1][..j] == forest[..j];
  }

  lemma TableDocWeightSnoc(keys: seq<string>, k: nat, entries: map<string, FileSymbols>)
    requires k < |keys|
    ensures TableDocWeight(keys[..k + 1], entries) == TableDocWeight(keys[..k], entries) +
              (if keys[k] in entries then ForestDocWeight(entries[keys[k]].symbols) else 0)
  {
    assert keys[..k + 1][..k] == keys[..k];
  }

  /** The auto rule: comments are on when the counted docblocks fit in half the threshold. */
  predicate AutoComments(table: OrderedMap<string, FileSymbols>) {
    TableDocWeight(table.keys, table.entries) <= AutoCommentsThreshold / 2
  }

  /** The `comments` option when given, the auto rule otherwise. */
  predicate ChooseComments(comments: Option<bool>, table: OrderedMap<string, FileSymbols>) {
    if comments.Some? then comments.value else AutoComments(table)
  }

  /** An explicit value is used as given; without one, comments are on exactly when the
      counted docblock length is at most 2500 characters. */
  lemma CommentsRule(comments: Option<bool>, table: OrderedMap<string, FileSymbols>)
    ensures comments.Some? ==> (ChooseComments(comments, table) == comments.value)
    ensures comments.None? ==>
              (ChooseComments(comments, table) <==> TableDocWeight(table.keys, table.entries) <= 2500)
  {
  }

  lemma {:induction false} DocLengthsAppend(a: seq<CodeSymbol>, b: seq<CodeSymbol>)
    ensures DocLengths(a + b) == DocLengths(a) + DocLengths(b)
    decreases |b|
  {
    if b == [] {
      assert a + b == a;
    } else {
      var n := |b| - 1;
      assert (a + b)[..|a + b| - 1] == a + b[..n];
      assert (a + b)[|a + b| - 1] == b[n];
      DocLengthsAppend(a, b[..n]);
    }
  }

  /** All docblock lengths of a forest, at every depth. */
  function AllDocLength(forest: seq<CodeSymbol>): nat {
    DocLengths(FlattenAll(forest))
  }

  /** The auto mode counts the roots and their direct children only: never more than all
      docblocks of the forest, and all of them when nothing nests deeper than two levels. */
  lemma {:induction false} ForestDocWeightBound(forest: seq<CodeSymbol>)
    ensures ForestDocWeight(forest) <= AllDocLength(forest)
    ensures DepthAtMost(forest, 2) ==> ForestDocWeight(forest) == AllDocLength(forest)
    decreases |forest|
  {
    if forest != [] {
      var n := |forest| - 1;
      var init, last := forest[..n], forest[n];
      assert init + [last] == forest;
      ForestDocWeightBound(init);
      FlattenAllAppend(init, [last]);
      FlattenAllSingle(last);
      DocLengthsAppend(FlattenAll(init), Flatten(last));
      RootDocWeightBound(last);
      if DepthAtMost(forest, 2) {
        assert DepthAtMost(init, 2) by {
          forall i | 0 <= i < |init| ensures SymbolDepthAtMost(init[i], 2) {
            assert init[i] == forest[i];
          }
        }
        assert SymbolDepthAtMost(forest[n], 2);
      }
    }
  }

  lemma {:induction false} RootDocWeightBound(s: CodeSymbol)
    ensures RootDocWeight(s) <= DocLengths(Flatten(s))
    ensures SymbolDepthAtMost(s, 2) ==> RootDocWeight(s) == DocLengths(Flatten(s))
  {
    DocLengthsAppend([Strip(s)], FlattenAll(Kids(s)));
    assert DocLengths([Strip(s)]) == DocLength(s) by {
      assert [Strip(s)][..0] == [];
    }
    assert Flatten(s) == [Strip(s)] + FlattenAll(Kids(s));
    LeavesDocWeight(Kids(s));
  }

  /** Over a list of symbols, the own docblocks are at most those of everything below;
      equal when none has children. */
  lemma {:induction false} LeavesDocWeight(items: seq<CodeSymbol>)
    ensures DocLengths(items) <= DocLengths(FlattenAll(items))
    ensures DepthAtMost(items, 1) ==> DocLengths(items) == DocLengths(FlattenAll(items))
    decreases |items|
  {
    if items != [] {
      var n := |items| - 1;
      var init, last := items[..n], items[n];
      assert init + [last] == items;
      LeavesDocWeight(init);
      FlattenAllAppend(init, [last]);
      FlattenAllSingle(last);
      DocLengthsAppend(FlattenAll(init), Flatten(last));
      LeafDocWeight(last);
      if DepthAtMost(items, 1) {
        assert DepthAtMost(init, 1) by {
          forall i | 0 <= i < |init| ensures SymbolDepthAtMost(init[i], 1) {
            assert init[i] == items[i];
          }
        }
        assert SymbolDepthAtMost(items[n], 1);
      }
    }
  }

  /** One symbol's own docblock against those of its whole subtree. */
  lemma LeafDocWeight(s: CodeSymbol)
    ensures DocLength(s) <= DocLengths(Flatten(s))
    ensures SymbolDepthAtMost(s, 1) ==> DocLength(s) == DocLengths(Flatten(s))
  {
    DocLengthsAppend([Strip(s)], FlattenAll(Kids(s)));
    assert Flatten(s) == [Strip(s)] + FlattenAll(Kids(s));
    assert DocLengths([Strip(s)]) == DocLength(s) by {
      assert [Strip(s)][..0] == [];
    }
    assert Kids(s) != [] ==> !SymbolDepthAtMost(Kids(s)[0], 0);
    assert SymbolDepthAtMost(s, 1) ==> DepthAtMost(Kids(s), 0);
    assert Kids(s) == [] ==> FlattenAll(Kids(s)) == [];
  }

  /** The file-mode reply when there is nothing to show. */
  function NoSymbolsMessage(filePath: string): string {
    filePath + "\n\n[No symbols found or unsupported language]"
  }

  /** What `handleFile` returns: comments default to on. */
  function FileOutput(filePath: string, comments: Option<bool>, parse: string -> Option<FileSymbols>): string {
    var fileSymbols := parse(filePath);
    if !HasSymbols(fileSymbols) then NoSymbolsMessage(filePath)
    else Join(FileLines(fileSymbols.value, comments.GetOr(true)), "\n")
  }

  /** `handleFile(filePath, options)`. */
  method HandleFile(filePath: string, comments: Option<bool>, parse: string -> Option<FileSymbols>)
    returns (out: string)
    ensures out == FileOutput(filePath, comments, parse)
  {
    var includeComments := comments.GetOr(true);
    var fileSymbols := parse(filePath);
    if fileSymbols.None? || |fileSymbols.value.symbols| == 0 {
      return filePath + "\n\n[No symbols found or unsupported language]";
    }
    out := FormatFile(fileSymbols.value, includeComments);
  }

  /** In file mode a missing or empty parse gives the message, and otherwise the file
      rendering, with comments unless they were turned off. */
  lemma FileMode(filePath: string, comments: Option<bool>, parse: string -> Option<FileSymbols>)
    ensures !HasSymbols(parse(filePath)) ==>
              FileOutput(filePath, comments, parse) == filePath + "\n\n[No symbols found or unsupported language]"
    ensures HasSymbols(parse(filePath)) && comments != Some(false) ==>
              FileOutput(filePath, comments, parse) == Join(FileLines(parse(filePath).value, true), "\n")
  {
  }

  /** The walker `handleDirectory` builds. */
  function WalkerEnv(dirPath: string, depth: int, ignore: Option<seq<string>>, world: World): Env {
    Env(dirPath, depth, MaxEntries, world.ignoreRules(dirPath)(ignore.GetOr([])), world.collate)
  }

  /** `walk()` of a fresh walker. */
  function FreshWalk(env: Env, fs: FsNode): WalkResult {
    var (root, st) := WalkFrom(env, Counter(0, false), fs);
    WalkResult(root, st.truncated, st.entryCount)
  }

  /** The symbols map: the first files of the tree that parse to some symbols, or none
      when symbols are off. */
  function SymbolsTable(result: WalkResult, includeSymbols: bool, parse: string -> Option<FileSymbols>)
    : OrderedMap<string, FileSymbols>
  {
    if includeSymbols then ParsedTable(Limit(Files(result.root)), parse) else Empty()
  }

  /** What `handleDirectory` returns. */
  function DirectoryOutput(dirPath: string, depth: int, options: ToolOptions, world: World, fs: FsNode): string {
    var result := FreshWalk(WalkerEnv(dirPath, depth, options.ignore, world), fs);
    var includeSymbols := options.symbols.GetOr(true);
    var table := SymbolsTable(result, includeSymbols, world.parse);
    var includeComments := ChooseComments(options.comments, table);
    Join(DirectoryLines(result, table.entries, FormatOptions(includeSymbols, includeComments)), "\n")
  }

  /** `handleDirectory(dirPath, depth, options)`. */
  method HandleDirectory(dirPath: string, depth: int, options: ToolOptions, world: World, fs: FsNode)
    returns (out: string)
    ensures out == DirectoryOutput(dirPath, depth, options, world, fs)
  {
    var env := Env(dirPath, depth, MaxEntries, world.ignoreRules(dirPath)(options.ignore.GetOr([])), world.collate);
    var walker := new DirectoryWalker(env, fs);
    var result := walker.Walk();
    var includeSymbols := options.symbols.GetOr(true);
    var table: OrderedMap<string, FileSymbols> := Empty();
    if includeSymbols {
      var filesToParse := CollectFiles(result.root, []);
      var limitedFiles := filesToParse[..if |filesToParse| < MaxFilesToParse then |filesToParse| else MaxFilesToParse];
      assert limitedFiles == Limit(Files(result.root));
      table := ParseFiles(limitedFiles, world.parse);
    }
    var includeComments: bool;
    if options.comments.Some? {
      includeComments := options.comments.value;
    } else {
      var docblockLength := DocblockLength(table);
      includeComments := docblockLength <= AutoCommentsThreshold / 2;
    }
    out := FormatDirectory(result, table.entries, FormatOptions(includeSymbols, includeComments));
  }

  /** What `codeTree(options)` returns or throws. */
  function CodeTreeOutput(options: ToolOptions, world: World): Result<string> {
    var absolutePath := world.resolve(options.path);
    match world.stat(absolutePath)
    case None => Failure("Path not found: " + options.path)
    case Some(node) =>
      var depth := options.depth.GetOr(DefaultDepth);
      if !node.Dir? then Success(FileOutput(absolutePath, options.comments, world.parse))
      else Success(DirectoryOutput(absolutePath, depth, options, world, node))
  }

  /** `codeTree(options)`. */
  method Run(options: ToolOptions, world: World) returns (r: Result<string>)
    ensures r == CodeTreeOutput(options, world)
  {
    var absolutePath := world.resolve(options.path);
    var stats := world.stat(absolutePath);
    if stats.None? {
      return Failure("Path not found: " + options.path);
    }
    var depth := options.depth.GetOr(DefaultDepth);
    if !stats.value.Dir? {
      var out := HandleFile(absolutePath, options.comments, world.parse);
      return Success(out);
    }
    var out := HandleDirectory(absolutePath, depth, options, world, stats.value);
    r := Success(out);
  }

  /** The defaults: a path that does not exist is an error naming the path as given; an
      omitted depth walks 10 levels; omitted symbols mean symbols on. */
  lemma Defaults(options: ToolOptions, world: World)
    ensures world.stat(world.resolve(options.path)).None? ==>
              CodeTreeOutput(options, world) == Failure("Path not found: " + options.path)
    ensures options.depth.None? ==>
              CodeTreeOutput(options, world) == CodeTreeOutput(options.(depth := Some(10)), world)
    ensures options.symbols.None? ==>
              CodeTreeOutput(options, world) == CodeTreeOutput(options.(symbols := Some(true)), world)
  {
  }

  /** With symbols off nothing is parsed: the map is empty and the auto rule turns
      comments on. */
  lemma SymbolsOff(result: WalkResult, parse: string -> Option<FileSymbols>)
    ensures SymbolsTable(result, false, parse).entries == map[]
    ensures ChooseComments(None, SymbolsTable(result, false, parse))
  {
  }

  /** Only files with symbols, collected from the tree and among the first 500, enter the
      symbols map. */
  lemma SymbolsTableContents(result: WalkResult, parse: string -> Option<FileSymbols>, path: string)
    ensures path in SymbolsTable(result, true, parse).entries <==>
            (exists i :: 0 <= i < |Limit(Files(result.root))| && Limit(Files(result.root))[i].path == path) &&
            HasSymbols(parse(path))
    ensures path in SymbolsTable(result, true, parse).entries ==>
              exists f :: f in EntryPreorder(result.root) && f.path == path && !f.isDirectory
  {
    var limited := Limit(Files(result.root));
    FilesMembers(result.root);
    ParsedTableContents(limited, parse, path);
    if path in SymbolsTable(result, true, parse).entries {
      var i :| 0 <= i < |limited| && limited[i].path == path;
      assert limited[i] == Files(result.root)[i];
      assert Files(result.root)[i] in Files(result.root);
    }
  }

  /** A tree rendered without symbols has one line per walked entry: the root and the
      `totalEntries` it counted, plus the two notice lines when truncated. */
  lemma TreeLineCount(env: Env, fs: FsNode, symbols: map<string, FileSymbols>, opts: FormatOptions)
    requires !opts.includeSymbols
    ensures var result := FreshWalk(env, fs);
            |DirectoryLines(result, symbols, opts)| ==
            result.totalEntries + 1 + (if result.truncated then 2 else 0)
  {
    WalkFresh(env, fs);
    DirectoryTree(FreshWalk(env, fs), symbols, opts);
  }
}
