/**
 * The `glance` tool (src/tools/glance.ts): the same front end as `code_tree`, except
 * that its `collectFiles` builds a fresh list per call, and that in auto mode it keeps
 * the comments when the rendering with comments fits in 5000 characters.
 */
module Glance {
  import opened Wrappers
  import opened Sequences
  import opened Strings
  import opened Types
  import opened OrderedMaps
  import opened Walker
  import opened FileFormatter
  import opened DirectoryFormatter
  import CodeTree

  const DefaultDepth: int := 10
  const MaxEntries: int := 2000
  const MaxFilesToParse: nat := 500
  /** In characters. */
  const AutoCommentsThreshold: int := 5000

  /** `collectFiles(entry)`: a new list per call, the children's lists spread into it. */
  method CollectFiles(entry: WalkEntry) returns (files: seq<WalkEntry>)
    ensures files == CodeTree.Files(entry)
    decreases entry
  {
    files := [];
    if !entry.isDirectory {
      files := files + [entry];
    }
    ghost var own := files;
    if entry.children.Listed? {
      var items := entry.children.items;
      for i := 0 to |items|
        invariant files == own + CodeTree.FilesAll(items[..i])
      {
        CodeTree.FilesAllSnoc(items[..i], items[i]);
        PrefixSnoc<WalkEntry>(items, i);
        var sub := CollectFiles(items[i]);
        AppendAssoc<WalkEntry>(own, CodeTree.FilesAll(items[..i]), sub);
        files := files + sub;
      }
      assert items[..|items|] == items;
      assert CodeTree.Files(entry) == own + CodeTree.FilesAll(items);
    }
  }

  /** The rendering `handleDirectory` measures and may return. */
  function Rendering(result: WalkResult, table: OrderedMap<string, FileSymbols>,
                     includeSymbols: bool, includeComments: bool): string {
    Join(DirectoryLines(result, table.entries, FormatOptions(includeSymbols, includeComments)), "\n")
  }

  /** The `comments` option when given; otherwise on exactly when the rendering with
      comments is at most 5000 characters long. */
  predicate ChooseComments(comments: Option<bool>, result: WalkResult,
                           table: OrderedMap<string, FileSymbols>, includeSymbols: bool) {
    if comments.Some? then comments.value
    else |Rendering(result, table, includeSymbols, true)| <= AutoCommentsThreshold
  }

  /** What `handleDirectory` returns. */
  function DirectoryOutput(dirPath: string, depth: int, options: CodeTree.ToolOptions,
                           world: CodeTree.World, fs: FsNode): string {
    var result := CodeTree.FreshWalk(CodeTree.WalkerEnv(dirPath, depth, options.ignore, world), fs);
    var includeSymbols := options.symbols.GetOr(true);
    var table := CodeTree.SymbolsTable(result, includeSymbols, world.parse);
    Rendering(result, table, includeSymbols, ChooseComments(options.comments, result, table, includeSymbols))
  }

  /** `handleDirectory(dirPath, depth, options)`. */
  method HandleDirectory(dirPath: string, depth: int, options: CodeTree.ToolOptions,
                         world: CodeTree.World, fs: FsNode)
    returns (out: string)
    ensures out == DirectoryOutput(dirPath, depth, options, world, fs)
  {
    var env := Env(dirPath, depth, MaxEntries, world.ignoreRules(dirPath)(options.ignore.GetOr([])), world.collate);
    var walker := new DirectoryWalker(env, fs);
    var result := walker.Walk();
    var includeSymbols := options.symbols.GetOr(true);
    var table: OrderedMap<string, FileSymbols> := Empty();
    if includeSymbols {
      var filesToParse := CollectFiles(result.root);
      var limitedFiles := filesToParse[..if |filesToParse| < MaxFilesToParse then |filesToParse| else MaxFilesToParse];
      assert limitedFiles == CodeTree.Limit(CodeTree.Files(result.root));
      table := CodeTree.ParseFiles(limitedFiles, world.parse);
    }
    var includeComments: bool;
    if options.comments.Some? {
      includeComments := options.comments.value;
    } else {
      var withComments := FormatDirectory(result, table.entries, FormatOptions(includeSymbols, true));
      if |withComments| <= AutoCommentsThreshold {
        includeComments := true;
      } else {
        includeComments := false;
      }
    }
    out := FormatDirectory(result, table.entries, FormatOptions(includeSymbols, includeComments));
  }

  /** What `glance(options)` returns or throws. */
  function GlanceOutput(options: CodeTree.ToolOptions, world: CodeTree.World): Result<string> {
    var absolutePath := world.resolve(options.path);
    match world.stat(absolutePath)
    case None => Failure("Path not found: " + options.path)
    case Some(node) =>
      var depth := options.depth.GetOr(DefaultDepth);
      if !node.Dir? then Success(CodeTree.FileOutput(absolutePath, options.comments, world.parse))
      else Success(DirectoryOutput(absolutePath, depth, options, world, node))
  }

  /** `glance(options)`; its `handleFile` is that of `code_tree`. */
  method Run(options: CodeTree.ToolOptions, world: CodeTree.World) returns (r: Result<string>)
    ensures r == GlanceOutput(options, world)
  {
    var absolutePath := world.resolve(options.path);
    var stats := world.stat(absolutePath);
    if stats.None? {
      return Failure("Path not found: " + options.path);
    }
    var depth := options.depth.GetOr(DefaultDepth);
    if !stats.value.Dir? {
      var out := CodeTree.HandleFile(absolutePath, options.comments, world.parse);
      return Success(out);
    }
    var out := HandleDirectory(absolutePath, depth, options, world, stats.value);
    r := Success(out);
  }

  /** In auto mode the reply is the rendering with comments when that fits in 5000
      characters, and the rendering without them otherwise; an explicit value is used
      as given. */
  lemma AutoCommentsRule(dirPath: string, depth: int, options: CodeTree.ToolOptions,
                         world: CodeTree.World, fs: FsNode)
    ensures var result := CodeTree.FreshWalk(CodeTree.WalkerEnv(dirPath, depth, options.ignore, world), fs);
            var includeSymbols := options.symbols.GetOr(true);
            var table := CodeTree.SymbolsTable(result, includeSymbols, world.parse);
            var withComments := Rendering(result, table, includeSymbols, true);
            var out := DirectoryOutput(dirPath, depth, options, world, fs);
            && (options.comments.None? && |withComments| <= 5000 ==> out == withComments && |out| <= 5000)
            && (options.comments.None? && |withComments| > 5000 ==>
                  out == Rendering(result, table, includeSymbols, false))
            && (options.comments.Some? ==>
                  out == Rendering(result, table, includeSymbols, options.comments.value))
  {
  }

  /** Both tools agree on everything but the auto-comments rule: with `comments` given
      they return the same, and so they do on a file or a missing path. */
  lemma AgreesWithCodeTree(options: CodeTree.ToolOptions, world: CodeTree.World)
    ensures options.comments.Some? ==> GlanceOutput(options, world) == CodeTree.CodeTreeOutput(options, world)
    ensures (world.stat(world.resolve(options.path)).None? || !world.stat(world.resolve(options.path)).value.Dir?) ==>
              GlanceOutput(options, world) == CodeTree.CodeTreeOutput(options, world)
  {
  }

  /** The defaults: an omitted depth walks 10 levels; omitted symbols mean symbols on. */
  lemma Defaults(options: CodeTree.ToolOptions, world: CodeTree.World)
    ensures options.depth.None? ==>
              GlanceOutput(options, world) == GlanceOutput(options.(depth := Some(10)), world)
    ensures options.symbols.None? ==>
              GlanceOutput(options, world) == GlanceOutput(options.(symbols := Some(true)), world)
  {
  }
}
