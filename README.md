# code-tree symbol outline, modelled in Dafny

This project models the symbol-outline pipeline of `code-tree`, an MCP tool that shows a
directory tree or a single file as an outline of its declarations. The model covers
these parts:

- **Symbol extraction** (`src/parser/extractor.ts`, module `Extractor`, with the
  exactly-once proofs in `ExtractorNesting`).
  - The captures of a tree-sitter query are an input list of `(label, node)` pairs over
    an arena of syntax nodes.
  - Each capture gives a symbol keyed by its declaration node: kind by exact label,
    signature, docblock and visibility.
  - Each symbol nests under its nearest ancestor symbol, and every level is sorted by
    line.
- **Markdown headings** (`src/parser/queries/markdown.ts`, module `Markdown`). A one-pass
  scan that nests `##` sections under the latest `#` section.
- **Language registry** (`src/parser/languages.ts`, module `Languages`). A
  last-write-wins map from extension to configuration, as a class with a map field.
- **Kind labels** (`src/formatter/utils.ts` and the private copies in file.ts and
  directory.ts, module `KindPrefixes`).
- **File rendering** (`src/formatter/file.ts`, module `FileFormatter`) and **directory
  rendering** (`src/formatter/directory.ts`, module `DirectoryFormatter`). Both are
  recursive methods that append to the shared list of lines.
- **Directory walking** (`src/scanner/walker.ts`, module `Walker`). A `DirectoryWalker`
  class whose `entryCount` and `truncated` fields change as it walks an abstract file
  tree. It applies the depth limit, the entry budget, ignore filtering and the
  directories-first sort.
- **The two tools** (`src/tools/code-tree.ts` and `src/tools/glance.ts`, modules
  `CodeTree` and `Glance`). Each covers file collection, the 500-file cap, the parse
  loop, the defaults and the two auto-comments rules.

Shared pieces:

- `Types`: the data types of `src/parser/types.ts`.
- `Strings`: JavaScript's `trim`, `split`, `join`, `startsWith` and `\b…\b` tests.
- `OrderedMaps`: a JavaScript `Map`, which iterates in first-insertion order.
- `Wrappers`: `Option` and `Result`.
- `Sequences`: generic list facts used by the proofs.

Each loop or state-changing method is proved against a specification function:
- `CollectSymbols` against `SymbolTable`;
- `ScanLines` against `Sections(Headings(lines))`;
- `FormatSymbol` against `SymbolLines`;
- `WalkEntries` against `WalkList`;
- `DocblockLength` against `TableDocWeight`.

The source's promises are then proved as lemmas about those functions:
- every extracted symbol appears exactly once and every level is sorted by line;
- the sort is stable;
- the rendered lines are in pre-order with the stated indentation;
- the walker's counters stay within budget;
- each auto-comments rule is stated as the tool applies it.

Both renderers check `symbol.docblock` and `symbol.signature` by JavaScript truthiness.
The model writes that check as `Truthy`: present and non-empty.

The two `if (name)` guards of the Markdown scan can never fail: a trimmed line that
starts with `# ` or `## ` has a non-blank character after the marker.
`Markdown.MarkerNameNonEmpty` proves this, and the model's dead branches are
`assert false`.

## Model

| member | source | states |
|---|---|---|
| Types.KindOfName | src/parser/types.ts:1-14 | a kind read back from a string is the kind whose name that string is; strings outside the union give `None` |
| Types.KindNameRoundTrip | src/parser/types.ts:1-14 | the 13 kind names are pairwise different: reading a kind's name back gives that kind |
| Types.VisibilityName | src/parser/types.ts:23 | each visibility keyword is non-empty and starts and ends with a lower-case letter, so a `\b` test on it is well defined |
| Types.Kids | src/parser/types.ts:22 | an absent `children` reads as empty, and every child is structurally smaller than its parent, so a symbol list is a finite forest |
| Types.FlattenSize | src/parser/types.ts:22 | flattening a symbol lists itself and every descendant once: its size |
| Types.FlattenAllSize | src/parser/types.ts:22 | flattening a forest lists each of its symbols once |
| Types.SizeAppend | src/parser/types.ts:22 | symbol counts add up over concatenated lists |
| Strings.TrimEnd | src/parser/extractor.ts:136 | the trailing half of `trim`: a prefix of the input that does not end with a blank |
| Strings.TrimEndBlanks | src/parser/extractor.ts:136 | every character `TrimEnd` drops is blank |
| Strings.LeadingBlanks | src/parser/extractor.ts:136 | the leading blanks counted: at most the length, and followed by a non-blank or the end |
| Strings.LeadingBlanksBlank | src/parser/extractor.ts:136 | the counted leading characters are all blank |
| Strings.Trim | src/parser/extractor.ts:136 | `trim()`: the slice of the input right after its leading blanks, neither starting nor ending with a blank |
| Strings.TrimBlanks | src/parser/extractor.ts:136 | everything `Trim` drops, before and after the slice, is blank |
| Strings.TrimTailBlank | src/parser/extractor.ts:136 | everything `Trim` drops after the slice is blank |
| Strings.TrimKeepsOut | src/parser/extractor.ts:136 | trimming introduces no character |
| Strings.Split | src/parser/extractor.ts:132 | `split` on one character: at least one piece, none containing the separator |
| Strings.JoinSplit | src/formatter/file.ts:19 | joining the pieces of a split with the separator gives back the string |
| Strings.SplitWithoutSeparator | src/formatter/file.ts:19 | a string without the separator splits into itself alone |
| Strings.SplitCount | src/formatter/file.ts:19-22 | a split has one piece more than the string has separators |
| Strings.NatToString | src/formatter/directory.ts:103 | a count prints as decimal digits without a leading zero, and those digits denote the count |
| OrderedMaps.OrderedMap.Set | src/parser/extractor.ts:86 | `Map.set`: the value under the key is replaced; a new key goes last, an existing key keeps its place; validity is kept |
| OrderedMaps.KeysListed | src/parser/extractor.ts:110 | iteration visits exactly the keys of the map |
| OrderedMaps.Empty | src/parser/extractor.ts:18 | `new Map()` has no keys |
| OrderedMaps.SetAll | src/parser/extractor.ts:20-87 | a run of `set` calls yields a valid map |
| OrderedMaps.SetAllKeys | src/parser/extractor.ts:86 | a key is present exactly when some `set` call used it |
| OrderedMaps.SetAllLastWins | src/parser/extractor.ts:86 | the value under a key is that of its last `set` call |
| OrderedMaps.SetAllValues | src/parser/extractor.ts:86 | every stored value comes from a `set` call on its key |
| Extractor.KindOfCapture | src/parser/extractor.ts:33-56 | the kind is never `module` or `section`; any kind other than `function` comes from its own label, or `namespace` from `module`; the label `function` gives `function` |
| Extractor.KindOfOwnLabel | src/parser/extractor.ts:33-56 | every kind but `module` and `section` is chosen by the label that spells it |
| Extractor.NameSuffixedLabelIsFunction | src/parser/extractor.ts:33-56 | `class.name` and `method.name` fall through to `function`; `module` gives `namespace` |
| Extractor.ClipSignature | src/parser/extractor.ts:139-141 | at most 200 characters; a line of at most 200 is kept whole; a longer one becomes its first 197 characters plus `...` |
| Extractor.ClipKeepsOut | src/parser/extractor.ts:139-141 | clipping adds no character except dots |
| Extractor.SourceLine | src/parser/extractor.ts:132-133 | line `row` of the source holds no line feed; a row past the end reads as `""` |
| Extractor.NodeSignature | src/parser/extractor.ts:129-144 | the signature has at most 200 characters and no line feed, and it is the trimmed start line whenever that line fits |
| Extractor.Docblock | src/parser/extractor.ts:174 | no docblock (`null`) exactly when no doc comment was collected |
| Extractor.CollectDocComments | src/parser/extractor.ts:152-172 | the backward walk over previous named siblings collects the trimmed doc comments in source order |
| Extractor.DocCommentsStep | src/parser/extractor.ts:156-171 | a doc comment is moved to the front of the collected ones and the walk goes on; anything else ends the walk |
| Extractor.ExtractDocblock | src/parser/extractor.ts:146-189 | `extractDocblock` gives `Docblock` |
| Extractor.DocblockContiguity | src/parser/extractor.ts:156-171 | the walk stops at the first sibling that is not a qualifying comment, so an older doc comment beyond it is not taken |
| Extractor.DocCommentsQualify | src/parser/extractor.ts:157-163 | every collected comment starts with one of the configured prefixes |
| Extractor.GreetingMarkers | src/parser/extractor.ts:180-185 | `/** Greets a person */` loses its markers and blanks: `Greets a person` |
| Extractor.GreetingDocblock | src/parser/extractor.ts:177-188 | that single comment cleans to the docblock `Greets a person` |
| Extractor.VisibilityOf | src/parser/extractor.ts:191-201 | the first of private, protected, public and export that occurs as a whole word, looked for in that order; absent exactly when none occurs |
| Extractor.AnchorOf | src/parser/extractor.ts:23 | the declaration is the captured node's parent, a node of the arena above it |
| Extractor.NonEmpty | src/parser/extractor.ts:81-82 | `value \|\| undefined`: present exactly when the string is non-empty, and then equal to it |
| Extractor.CaptureSymbol | src/parser/extractor.ts:20-84 | no symbol exactly when the node has no parent or an empty text; otherwise the name is the node's text, the kind comes from the label, line = start row + 1, and signature and visibility are set only for functions and methods, with a non-empty signature of at most 200 characters |
| Extractor.Contribution | src/parser/extractor.ts:86 | a capture that yields a symbol sets it under its declaration's id |
| Extractor.ContributionBuilt | src/parser/extractor.ts:77-86 | the stored symbol field by field, as the object literal builds it |
| Extractor.Contributions | src/parser/extractor.ts:20-87 | one `set` call, or none, per capture, in capture order |
| Extractor.SymbolTable | src/parser/extractor.ts:18-87 | after the first loop, every key is a node id and every stored symbol is well formed and has no children |
| Extractor.SymbolTableKeys | src/parser/extractor.ts:86 | a declaration holds a symbol exactly when some capture on it yields one: at most one symbol per declaration node |
| Extractor.LastCaptureWins | src/parser/extractor.ts:86 | a later capture on the same declaration overwrites an earlier one |
| Extractor.AncestorChain | src/parser/extractor.ts:99-106 | the chain of parents from a node up to the root |
| Extractor.NearestAnchor | src/parser/extractor.ts:99-106 | the ancestor found is a key of the symbol map, no deeper than the start |
| Extractor.NearestAnchorIsFirst | src/parser/extractor.ts:99-106 | the walk finds the first key on the ancestor chain, and finds nothing exactly when the chain holds no key |
| Extractor.KeysInArena | src/parser/extractor.ts:110 | the iterated keys are keys of the map and node ids |
| Extractor.ParentOf | src/parser/extractor.ts:99-106 | the parent symbol of a declaration is a key lying strictly shallower, so nesting has no cycles |
| Extractor.RootIdsMembers | src/parser/extractor.ts:118-120 | the roots are the keys without a parent symbol |
| Extractor.RootIdsSnoc | src/parser/extractor.ts:118-120 | one more key joins the roots exactly when it has no parent symbol |
| Extractor.ChildIdsMembers | src/parser/extractor.ts:111-117 | the children of `p` are the keys whose parent symbol is `p` |
| Extractor.ChildIdsSnoc | src/parser/extractor.ts:111-117 | one more key joins the children of its parent symbol, at the end |
| Extractor.ChildMap | src/parser/extractor.ts:110-121 | a child list exists exactly for the keys someone nests under, in map order |
| Extractor.ChildMapOk | src/parser/extractor.ts:110-121 | every listed child is a key deeper than its parent |
| Extractor.BuildAll | src/parser/extractor.ts:110-121 | one materialised symbol per id |
| Extractor.InsertByLine | src/parser/extractor.ts:204 | insertion adds `x` and loses nothing |
| Extractor.SortByLine | src/parser/extractor.ts:204 | the sort permutes its input |
| Extractor.InsertByLineFrom | src/parser/extractor.ts:204 | insertion keeps a lower bound on lines |
| Extractor.InsertByLineSorted | src/parser/extractor.ts:204 | insertion into a list sorted by line keeps it sorted |
| Extractor.SortByLineSorted | src/parser/extractor.ts:204 | the sorted list is non-decreasing by line |
| Extractor.OnLineMembers | src/parser/extractor.ts:204 | `OnLine` keeps exactly the symbols on the given line |
| Extractor.OnLineCons | src/parser/extractor.ts:204 | `OnLine` of a list with one more symbol in front |
| Extractor.InsertByLineStable | src/parser/extractor.ts:204 | insertion puts `x` before the symbols on its own line that came after it, keeping their order |
| Extractor.SortByLineStable | src/parser/extractor.ts:204 | the sort is stable: symbols on the same line keep their relative order |
| Extractor.SortSymbol | src/parser/extractor.ts:205-209 | sorting changes only a symbol's `children`, and keeps it present or absent |
| Extractor.SortSymbolsByLine | src/parser/extractor.ts:203-210 | the recursive sort keeps the number of symbols at each level |
| Extractor.CollectSymbols | src/parser/extractor.ts:18-87 | the first loop builds `SymbolTable` |
| Extractor.FindParents | src/parser/extractor.ts:91-107 | the second loop records for a declaration exactly its nearest ancestor symbol, and records one for every declaration that has such an ancestor |
| Extractor.ChildrenStep | src/parser/extractor.ts:110-121 | one step of the organise loop: a key joins its parent's child list, creating it on the first push, or joins the roots |
| Extractor.ChildrenSoFarIsChildMap | src/parser/extractor.ts:110-121 | after the loop the child lists are those of `ChildMap` |
| Extractor.Organize | src/parser/extractor.ts:110-121 | the third loop yields the roots and, for each key, its children in map order |
| Extractor.ExtractSymbols | src/parser/extractor.ts:6-127 | `extractSymbols` returns `Extract` |
| Extractor.BuildSymbolShaped | src/parser/extractor.ts:115-116 | a `children` array exists only when something was pushed into it |
| Extractor.SortSymbolShaped | src/parser/extractor.ts:205-209 | sorting keeps every symbol well formed |
| Extractor.SortSymbolsByLineShaped | src/parser/extractor.ts:203-210 | sorting keeps every symbol of the forest well formed |
| Extractor.SortSymbolsByLineSorted | src/parser/extractor.ts:203-210 | after the sort the roots and every `children` list are sorted by line |
| Extractor.ExtractShape | src/parser/extractor.ts:6-127 | at every depth the output has no empty name, has line ≥ 1, obeys the per-capture rules, never has an empty `children` array, and is ordered by line |
| ExtractorNesting.DistinctCounts | src/parser/extractor.ts:110 | in a list without repetitions each element occurs once |
| ExtractorNesting.UnderDepth | src/parser/extractor.ts:99-106 | what a key nests under is a shallower key, so nesting is acyclic |
| ExtractorNesting.UnderTrans | src/parser/extractor.ts:99-106 | nesting is transitive |
| ExtractorNesting.UnderComparable | src/parser/extractor.ts:99-106 | the symbols above a node form a chain |
| ExtractorNesting.SiblingsDisjoint | src/parser/extractor.ts:111-117 | two symbols with the same parent share no descendant |
| ExtractorNesting.UnderStep | src/parser/extractor.ts:111-117 | a key strictly below `k` is below one of `k`'s children |
| ExtractorNesting.UnderRoot | src/parser/extractor.ts:118-120 | every key is below some root |
| ExtractorNesting.ChildIdsDistinct | src/parser/extractor.ts:111-117 | a child list has no repetition |
| ExtractorNesting.RootIdsDistinct | src/parser/extractor.ts:118-120 | the root list has no repetition |
| ExtractorNesting.UnderOneSibling | src/parser/extractor.ts:111-117 | a key lies below at most one of a list of siblings |
| ExtractorNesting.UnderSomeSnoc | src/parser/extractor.ts:111-117 | below one of a list of ids means below one of all but the last, or below the last |
| ExtractorNesting.SiblingsCountAt | src/parser/extractor.ts:111-117 | concatenating the subtrees of disjoint siblings counts once each key below one of them |
| ExtractorNesting.SiblingsCount | src/parser/extractor.ts:111-117 | the same for every key at once |
| ExtractorNesting.SubtreeSplit | src/parser/extractor.ts:111-117 | a key's subtree is itself plus its children's subtrees, and it is in none of them |
| ExtractorNesting.PreOrderCount | src/parser/extractor.ts:110-121 | the tree built for a key holds each key of its subtree once and nothing else |
| ExtractorNesting.ForestCount | src/parser/extractor.ts:110-121 | the forest holds each key of the map once and nothing else |
| ExtractorNesting.RootsCover | src/parser/extractor.ts:118-120 | the roots' subtrees cover exactly the map's keys |
| ExtractorNesting.ValuesLength | src/parser/extractor.ts:110 | looking up keys gives one symbol per key |
| ExtractorNesting.ValuesPermutation | src/parser/extractor.ts:110 | permuted ids give permuted symbols |
| ExtractorNesting.FlattenAllConcat | src/parser/extractor.ts:111-117 | flattening siblings gives the symbols of their concatenated ids |
| ExtractorNesting.BuildSymbolFlatten | src/parser/extractor.ts:110-121 | the flattened tree of a key is the map's symbols for its subtree, in order |
| ExtractorNesting.ForestExactlyOnce | src/parser/extractor.ts:110-121 | before sorting, the flattened forest is the map's symbols in an order holding every key once |
| ExtractorNesting.InsertByLineFlatten | src/parser/extractor.ts:204 | insertion keeps every nested symbol |
| ExtractorNesting.SortByLineFlatten | src/parser/extractor.ts:204 | sorting one level keeps every nested symbol |
| ExtractorNesting.PointwiseFlatten | src/parser/extractor.ts:205-209 | lists whose elements flatten to the same multisets flatten to the same multiset |
| ExtractorNesting.SortSymbolFlatten | src/parser/extractor.ts:205-209 | sorting below one symbol keeps every nested symbol |
| ExtractorNesting.SortSymbolsFlatten | src/parser/extractor.ts:203-210 | the recursive sort keeps every nested symbol |
| ExtractorNesting.ForestOrderPermutesKeys | src/parser/extractor.ts:110-121 | the forest's ids are a permutation of the map's keys |
| ExtractorNesting.SortedForestPermutes | src/parser/extractor.ts:110-124 | building and sorting the forest permutes the map's symbols |
| ExtractorNesting.ExtractExactlyOnce | src/parser/extractor.ts:6-127 | every symbol of the map appears exactly once in the output, which has as many symbols as the map has keys |
| Markdown.Classify | src/parser/queries/markdown.ts:10-28 | a heading has a non-empty name and its own line number; a first-level one came from a trimmed line starting `# `, a second-level one `## ` |
| Markdown.NonBlankTrim | src/parser/queries/markdown.ts:15 | a string with a non-blank character does not trim to empty |
| Markdown.MarkerNameNonEmpty | src/parser/queries/markdown.ts:14-16 | after a marker ending in a blank there is always a non-empty name, so `if (name)` always passes |
| Markdown.DeepHeadingIgnored | src/parser/queries/markdown.ts:14-26 | `###` and deeper headings produce nothing |
| Markdown.Headings | src/parser/queries/markdown.ts:9-11 | headings are numbered 1 to the number of lines, strictly increasing |
| Markdown.LeadingH2sRun | src/parser/queries/markdown.ts:36-44 | the leading run of second-level headings ends at a first-level heading |
| Markdown.SectionsSnocH1 | src/parser/queries/markdown.ts:17-22 | a first-level heading opens a new root section |
| Markdown.GroupSnoc | src/parser/queries/markdown.ts:37-40 | one more second-level heading is one more child, the array being created on the first push |
| Markdown.SectionsSnocOrphanH2 | src/parser/queries/markdown.ts:41-44 | with no earlier first-level heading, a second-level heading is a root |
| Markdown.NestLast | src/parser/queries/markdown.ts:37-40 | nesting changes only the last root, which gains the child |
| Markdown.SectionsSnocNestedH2 | src/parser/queries/markdown.ts:36-40 | after a first-level heading, a second-level one becomes the last child of the most recent first-level section |
| Markdown.HeadingsSnoc | src/parser/queries/markdown.ts:9-11 | one more line adds its heading, if any |
| Markdown.ScanLine | src/parser/queries/markdown.ts:10-46 | one iteration keeps `symbols` equal to the outline so far and `currentH1` on the latest first-level section |
| Markdown.ScanH2 | src/parser/queries/markdown.ts:28-45 | a second-level heading nests under the current first-level section, or becomes a root |
| Markdown.ScanLines | src/parser/queries/markdown.ts:9-47 | the loop yields the sections of the lines' headings |
| Markdown.ExtractMarkdownSymbols | src/parser/queries/markdown.ts:4-50 | `extractMarkdownSymbols` returns `Outline` |
| Markdown.SectionsPreorder | src/parser/queries/markdown.ts:9-47 | flattening the outline gives every heading once, in document order |
| Markdown.SectionsSize | src/parser/queries/markdown.ts:9-47 | the outline has as many symbols as there are headings |
| Markdown.GroupShaped | src/parser/queries/markdown.ts:17-40 | a first-level section with its run of second-level children is shaped so and nests at most 2 deep |
| Markdown.LeavesShaped | src/parser/queries/markdown.ts:17-33 | each heading becomes a named section on a real line with no signature, docblock, visibility or children |
| Markdown.SectionsShaped | src/parser/queries/markdown.ts:36-44 | every section is shaped so, a `children` array exists only when non-empty, and nesting is at most 2 deep |
| Markdown.HeadingsOk | src/parser/queries/markdown.ts:15-16 | every heading found has a name and a line ≥ 1 |
| Markdown.OutlineProperties | src/parser/queries/markdown.ts:4-50 | every heading exactly once with strictly increasing lines in pre-order, sections only, at most two levels |
| Markdown.EmptyOutline | src/parser/queries/markdown.ts:5-9 | empty content has an empty outline |
| Markdown.NestingExample | src/parser/queries/markdown.ts:26-45 | each subsection nests under its own chapter; one before any chapter stays a root |
| Languages.Assign | src/parser/languages.ts:16-18 | the listed extensions point to the configuration; every other extension keeps its mapping |
| Languages.Registry.constructor | src/parser/languages.ts:13 | the registry starts empty |
| Languages.Registry.Register | src/parser/languages.ts:15-19 | `registerLanguage` updates the registry as `Registered` says |
| Languages.Registry.Lookup | src/parser/languages.ts:21-25 | exact-key lookup, `None` (null) for an unregistered extension; it only reads the registry |
| Languages.RegisterLookup | src/parser/languages.ts:15-19 | after registering `c`, each of its extensions resolves to `c`, and every other extension keeps its previous mapping or absence |
| Languages.RegisterAllLookup | src/parser/languages.ts:15-19 | after a run of registrations, an extension is registered exactly when some configuration listed it |
| Languages.RegisterAllLast | src/parser/languages.ts:17 | it resolves to the last configuration that listed it |
| Languages.LastRegistrationWins | src/parser/languages.ts:17 | of two configurations sharing an extension, the later wins |
| Languages.MarkdownLookup | src/parser/queries/markdown.ts:52-57 | once Markdown is registered, `.md` and `.mdx` resolve to it; the lookup is exact, so registering it does not register `.MD` or `md` |
| KindPrefixes.KindPrefixTable | src/formatter/utils.ts:3-32 | `fn` exactly for function and method, `namespace` exactly for namespace and module, `const` exactly for constant, `#` exactly for section, the kind's own name for the seven others |
| KindPrefixes.KindPrefixCollapses | src/formatter/utils.ts:5-22 | two kinds share a label only when equal, or both function/method, or both namespace/module |
| KindPrefixes.KindLabelAgrees | src/formatter/utils.ts:3-32 | the per-kind table is `getKindPrefix` of the kind's name |
| KindPrefixes.UnknownKindUnchanged | src/formatter/utils.ts:29-30 | a string naming no kind is returned unchanged, by both copies |
| KindPrefixes.LocalKindPrefixAgrees | src/formatter/file.ts:59-84 | the renderers' copy agrees with the shared one except that `section` stays `section` |
| KindPrefixes.LocalKindLabelAgrees | src/formatter/file.ts:59-84 | the renderers' per-kind table is their copy of `getKindPrefix` |
| FileFormatter.DocLines | src/formatter/file.ts:19-22 | one `indent/// piece` line per piece, in order |
| FileFormatter.PushDocLines | src/formatter/file.ts:18-23 | the docblock loop appends the doc lines only when comments are on and the docblock is non-empty |
| FileFormatter.BuildDeclaration | src/formatter/file.ts:26-39 | the reassigned `declaration` is `Declaration` |
| FileFormatter.FormatSymbol | src/formatter/file.ts:16-50 | `formatSymbol` appends the symbol's lines to the shared list |
| FileFormatter.FormatSymbols | src/formatter/file.ts:52-54 | formatting a list appends the lines of each symbol in turn |
| FileFormatter.FormatFile | src/formatter/file.ts:7-57 | `formatFile` joins `FileLines` with `\n` |
| FileFormatter.ForestLinesPreorder | src/formatter/file.ts:44-54 | with comments off, line `i` declares the `i`-th symbol in pre-order, two more spaces in per nesting level |
| FileFormatter.SymbolLinesPreorder | src/formatter/file.ts:16-50 | the same below one symbol |
| FileFormatter.FileLinesShape | src/formatter/file.ts:11-56 | the path, an empty line, then one declaration per symbol in pre-order, roots two spaces in, 2 + size lines in all |
| FileFormatter.ForestLinesCount | src/formatter/file.ts:18-49 | line count = symbols + (with comments) one per docblock piece |
| FileFormatter.SymbolLinesCount | src/formatter/file.ts:18-49 | the same for one symbol |
| FileFormatter.SectionDeclaration | src/formatter/file.ts:59-84 | a section renders as `section name`, not `# name` |
| FileFormatter.SignatureDeclaration | src/formatter/file.ts:34-36 | a signature replaces the whole declaration; visibility and kind are not shown |
| DirectoryFormatter.BuildDisplay | src/formatter/directory.ts:78-86 | the reassigned `display` is `SymbolDisplay` |
| DirectoryFormatter.FormatTreeSymbol | src/formatter/directory.ts:68-95 | one symbol's doc lines, display line and children appended |
| DirectoryFormatter.FormatTreeSymbols | src/formatter/directory.ts:63-96 | `formatSymbols` appends `TreeForestLines` |
| DirectoryFormatter.FormatEntry | src/formatter/directory.ts:21-61 | `formatEntry` appends `EntryLines` |
| DirectoryFormatter.PushFileSymbols | src/formatter/directory.ts:38-49 | symbols of a file entry appear only for a file, with symbols on and its path in the map |
| DirectoryFormatter.PushChildren | src/formatter/directory.ts:51-60 | the children appear only for a non-empty listing |
| DirectoryFormatter.PushHead | src/formatter/directory.ts:27-35 | the head line: bare name for the root, prefix and connector otherwise |
| DirectoryFormatter.FormatChildren | src/formatter/directory.ts:54-59 | the index loop renders each child, the final one as the last |
| DirectoryFormatter.FormatDirectory | src/formatter/directory.ts:14-108 | `formatDirectory` joins `DirectoryLines` with `\n` |
| DirectoryFormatter.TreeForestLinesCount | src/formatter/directory.ts:68-95 | one line per symbol plus, with comments, one per docblock piece |
| DirectoryFormatter.TreeSymbolLinesCount | src/formatter/directory.ts:68-95 | the same for one symbol |
| DirectoryFormatter.TreeForestLinesIndented | src/formatter/directory.ts:73-93 | every symbol line starts with the prefix and two spaces: no connector |
| DirectoryFormatter.TreeSymbolLinesIndented | src/formatter/directory.ts:73-93 | the same for one symbol |
| DirectoryFormatter.TreeForestLinesPreorder | src/formatter/directory.ts:68-95 | with comments off, line `i` shows the `i`-th symbol in pre-order two more spaces in per level |
| DirectoryFormatter.TreeSymbolLinesPreorder | src/formatter/directory.ts:68-95 | the same below one symbol |
| DirectoryFormatter.TreeKidsPreorder | src/formatter/directory.ts:92-94 | the children's lines show the symbols below `s` in pre-order, one level deeper |
| DirectoryFormatter.EntryGuides | src/formatter/directory.ts:31-53 | an entry's first line is its head, and every later line starts with the guide prefix (`│   ` or four spaces, nothing below the root) |
| DirectoryFormatter.ChildRowsPrefixed | src/formatter/directory.ts:53-59 | every line of a listing's children starts with the listing's prefix |
| DirectoryFormatter.ChildHeads | src/formatter/directory.ts:54-58 | child `j` starts right after children `0..j`, with `└── ` exactly when it is the final child and `├── ` otherwise |
| DirectoryFormatter.EntryPreorderSize | src/formatter/directory.ts:54-59 | pre-order lists each entry of the tree once |
| DirectoryFormatter.PreorderAllSize | src/formatter/directory.ts:54-59 | the same for a listing |
| DirectoryFormatter.EntryLinesPreorder | src/formatter/directory.ts:21-61 | with symbols off, one line per entry of the subtree in pre-order, each ending with that entry's name (`/` after directories) |
| DirectoryFormatter.ChildLinesPreorder | src/formatter/directory.ts:51-60 | the same for the children part |
| DirectoryFormatter.ChildRowsPreorder | src/formatter/directory.ts:54-59 | the same for the first `k` children |
| DirectoryFormatter.DirectoryTree | src/formatter/directory.ts:98-107 | with symbols off: one line per entry in pre-order, the root's bare name first, and when truncated an empty line and the notice with `totalEntries` |
| DirectoryFormatter.NoticeReportsCount | src/formatter/directory.ts:100-105 | the truncation notice carries `totalEntries` as decimal digits without a leading zero whose value is that count |
| DirectoryFormatter.SymbolDisplayTable | src/formatter/directory.ts:78-86 | a signature is shown only for functions and methods, visibility never, sections as `section name` |
| Walker.Insert | src/scanner/walker.ts:110-114 | insertion into the sorted listing loses nothing |
| Walker.SortEntries | src/scanner/walker.ts:110-114 | the sort permutes the listing |
| Walker.DirectoryWalker.constructor | src/scanner/walker.ts:25-35 | a new walker has counted nothing and is not truncated |
| Walker.DirectoryWalker.Walk | src/scanner/walker.ts:37-59 | `walk()` returns the root of `WalkFrom` with the final counters, and leaves the fields at them |
| Walker.DirectoryWalker.WalkDirectory | src/scanner/walker.ts:61-119 | `walkDirectory` returns and counts what `WalkDir` says |
| Walker.DirectoryWalker.WalkEntries | src/scanner/walker.ts:78-107 | the loop over the listing returns and counts what `WalkList` says |
| Walker.WalkListDone | src/scanner/walker.ts:78-107 | with the listing exhausted the collected entries are the result |
| Walker.WalkListFull | src/scanner/walker.ts:79-82 | with the budget spent the loop stops and marks the walk truncated |
| Walker.WalkListIgnored | src/scanner/walker.ts:89-91 | an ignored entry is skipped without being counted |
| Walker.WalkListTaken | src/scanner/walker.ts:93-106 | any other entry is counted, walked at depth + 1 when a directory, and kept |
| Walker.CountSort | src/scanner/walker.ts:110-114 | sorting neither adds nor drops entries |
| Walker.WalkDirOk | src/scanner/walker.ts:61-119 | `entryCount` grows by the entries returned and never passes `maxEntries`; `truncated` never resets and is set only with the budget spent; a directory at `maxDepth` yields `[]`; a directory entered below `maxDepth` with the budget spent yields `[]` and sets `truncated`; entries have depth parent + 1, children exactly on directories, and no ignored path |
| Walker.WalkListOk | src/scanner/walker.ts:78-107 | the same for the loop |
| Walker.LessTransitive | src/scanner/walker.ts:110-114 | the comparator is transitive for a total collation |
| Walker.InsertSorted | src/scanner/walker.ts:110-114 | insertion keeps a listing sorted |
| Walker.SortEntriesSorted | src/scanner/walker.ts:110-114 | directories come first, then names ascend within each group |
| Walker.WalkDirSorted | src/scanner/walker.ts:61-119 | every listing returned, at every depth, is sorted so |
| Walker.WalkListSorted | src/scanner/walker.ts:78-107 | the same for the loop's entries |
| Walker.WalkFresh | src/scanner/walker.ts:37-59 | the root has depth 0 and the root name, children exactly when a directory; `totalEntries` is the number of non-root entries and within budget |
| Walker.RootNameSegment | src/scanner/walker.ts:41 | the root name is the last `/` segment, or the whole path when that segment is empty |
| CodeTree.CollectFiles | src/tools/code-tree.ts:141-153 | the accumulator version appends the files of the subtree |
| CodeTree.NonDirectories | src/tools/code-tree.ts:142-144 | keeps exactly the non-directory entries |
| CodeTree.FilesArePreorder | src/tools/code-tree.ts:141-153 | the collected files are the non-directory entries of the tree in pre-order |
| CodeTree.FilesAllArePreorder | src/tools/code-tree.ts:146-150 | the same for a listing |
| CodeTree.FilesMembers | src/tools/code-tree.ts:141-153 | every file of the tree is collected, and nothing else |
| CodeTree.Limit | src/tools/code-tree.ts:92 | `slice(0, 500)`: a prefix of at most 500, the whole list when shorter |
| CodeTree.Offers | src/tools/code-tree.ts:102-107 | one possible `set` call per file, in order |
| CodeTree.ParseFiles | src/tools/code-tree.ts:101-107 | the parse loop builds `ParsedTable` |
| CodeTree.ParsedTableContents | src/tools/code-tree.ts:102-107 | a path enters the map exactly when a parsed file has it and its parse has at least one symbol, and then holds that parse |
| CodeTree.DocblockLength | src/tools/code-tree.ts:115-129 | the nested loops add up the docblocks of roots and their direct children |
| CodeTree.CommentsRule | src/tools/code-tree.ts:111-133 | an explicit value is used as given; otherwise comments are on exactly when that sum is at most 2500 |
| CodeTree.ForestDocWeightBound | src/tools/code-tree.ts:116-129 | the sum never exceeds all docblock lengths of the forest, and equals it when nothing nests deeper than two levels |
| CodeTree.RootDocWeightBound | src/tools/code-tree.ts:117-128 | the same for one root |
| CodeTree.HandleFile | src/tools/code-tree.ts:47-67 | `handleFile` returns `FileOutput` |
| CodeTree.FileMode | src/tools/code-tree.ts:62-66 | a missing or empty parse gives the no-symbols message; otherwise the file rendering, with comments unless turned off |
| CodeTree.HandleDirectory | src/tools/code-tree.ts:69-139 | `handleDirectory` returns `DirectoryOutput` |
| CodeTree.Run | src/tools/code-tree.ts:24-45 | `codeTree` returns `CodeTreeOutput` |
| CodeTree.Defaults | src/tools/code-tree.ts:29-36 | a missing path fails with `Path not found`; omitted depth means 10; omitted symbols mean on |
| CodeTree.SymbolsOff | src/tools/code-tree.ts:85-133 | with symbols off nothing is parsed and the auto rule turns comments on |
| CodeTree.SymbolsTableContents | src/tools/code-tree.ts:87-107 | only files of the tree among the first 500 collected, and with symbols, enter the map |
| CodeTree.TreeLineCount | src/formatter/directory.ts:98-105 | without symbols a fresh walk renders `totalEntries + 1` lines, plus 2 when truncated |
| Glance.CollectFiles | src/tools/glance.ts:125-139 | the fresh-list version returns the same files as the accumulator version |
| Glance.HandleDirectory | src/tools/glance.ts:64-123 | `handleDirectory` returns `DirectoryOutput` |
| Glance.Run | src/tools/glance.ts:23-44 | `glance` returns `GlanceOutput` |
| Glance.AutoCommentsRule | src/tools/glance.ts:103-117 | in auto mode the rendering with comments is returned when it has at most 5000 characters, and the one without them otherwise; an explicit value wins |
| Glance.AgreesWithCodeTree | src/tools/glance.ts:23-62 | with `comments` given, or on a file or missing path, both tools answer the same |
| Glance.Defaults | src/tools/glance.ts:35-78 | omitted depth means 10; omitted symbols mean on |

## Left out

- The tree-sitter engine (`Parser`, `Language`, `Query`) is not part of this model. The captures and the syntax-node arena are inputs. The depth and sibling-index fields of a node only witness that its parent and sibling links are acyclic.
- The query strings of the other languages (`src/parser/queries/*.ts`) are opaque data for that engine. Their `registerLanguage` calls are only fixtures for the registry.
- `ParserManager` (`src/parser/index.ts`) is not part of this model: file reads, the size check, WASM loading and caching. Its `parseFile` is the `parse` parameter of `CodeTree.World`, a function from path to optional symbols.
- File system access (`stat`, `readdir`, `resolve`) is replaced by a given `FsNode` tree and the `resolve`/`stat` parameters. A failing `readdir` is the `Unreadable` case, which yields an empty listing as the `catch` does. A thrown `Path not found` is a `Failure` result. Symbolic links are not modelled.
- The `ignore` library and the `.gitignore` read are replaced by the `shouldIgnore` predicate of the walker (`ignoreRules` of the world, given the root whose `.gitignore` is read and the custom patterns).
- `localeCompare` is replaced by the `nameLe` collation parameter. That the listings come out sorted is proved under the hypothesis that the collation is a total preorder.
- `Array.prototype.sort` is modelled as a stable insertion sort, both for symbols by line and for directory listings. With a comparator that is not a consistent order, JavaScript's result is implementation-defined, and the model assumes none.
- String lengths count Unicode code points, not UTF-16 code units. This affects the 200-character signature clip, the 2500-character docblock sum and the 5000-character rendering limit for text outside the Basic Multilingual Plane.
- `path.join` and `path.relative` are modelled as plain `/` concatenation without normalisation.
- Async execution is modelled as sequential; each `await` completes before the next step.
- Object aliasing in `extractSymbols` is modelled through ids. A symbol pushed into its parent's `children` is the same object that later gains its own children. The model records children lists by anchor id and materialises the tree afterwards, which yields the same final values.
- The `if (!child) continue` guard of `formatEntry` never fires, because a listing holds no holes. The model omits it.
- Prototype-key quirks of the plain-object `languageRegistry` (for example an extension named `__proto__`) are not modelled: the registry is a map. The `\|\| null` of `getLanguageByExtension` is modelled as absence, since a configuration object is always truthy.
- `\b` and `\w` follow the ASCII definition of JavaScript regular expressions without the `u` flag.
- `Extractor.SortSymbolsByLine`: its own contract states only that the length is kept. The sorted levels, the shape and the permutation are separate lemmas: `SortSymbolsByLineSorted`, `SortSymbolsByLineShaped` and `SortSymbolsFlatten`.
