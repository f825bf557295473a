/**
 * The directory walker (src/scanner/walker.ts) over a given file-system tree. The walk
 * descends to `maxDepth`, counts entries against `maxEntries`, skips ignored paths,
 * and sorts each listing directories first and then by name.
 * The ignore rules and the name collation are parameters.
 */
module Walker {
  import opened Strings

  /** The file system as the walker sees it. A directory whose listing fails is `Unreadable`. */
  datatype FsNode = File(name: string) | Dir(name: string, contents: DirContents)
  datatype DirContents = Unreadable | Entries(items: seq<FsNode>)

  /** A `WalkEntry`; `children` is present on directories only. */
  datatype WalkEntry = WalkEntry(
    path: string, name: string, isDirectory: bool, depth: int, children: EntryChildren)
  datatype EntryChildren = NoEntries | Listed(items: seq<WalkEntry>)

  datatype WalkResult = WalkResult(root: WalkEntry, truncated: bool, totalEntries: int)

  /**
   * What a walker is built with:
   * - `maxDepth` and `maxEntries` from the options;
   * - `shouldIgnore`, the ignore manager's verdict on a path relative to the root
   *   (a trailing `/` marks a directory);
   * - `nameLe`, the collation `localeCompare` applies to names.
   */
  datatype Env = Env(
    rootPath: string,
    maxDepth: int,
    maxEntries: int,
    shouldIgnore: string -> bool,
    nameLe: (string, string) -> bool)

  /** The walker's two counters: `entryCount` and `truncated`. */
  datatype Counter = Counter(entryCount: int, truncated: bool)

  /** `join(dirPath, name)`, without normalisation. */
  function JoinPath(dir: string, name: string): string {
    dir + "/" + name
  }

  /** The path of `name` relative to the root, given its directory's relative path. */
  function ChildRel(rel: string, name: string): string {
    if rel == "" then name else rel + "/" + name
  }

  /** The path handed to the ignore check: directories get a trailing `/`. */
  function CheckPath(rel: string, isDir: bool): string {
    if isDir then rel + "/" else rel
  }

  /** The sort comparator's strict part: directories before files, then by name. */
  predicate Less(env: Env, a: WalkEntry, b: WalkEntry) {
    (a.isDirectory && !b.isDirectory) ||
    (a.isDirectory == b.isDirectory && !env.nameLe(b.name, a.name))
  }

  /** `x` inserted after every entry that does not sort strictly after it. */
  function Insert(env: Env, x: WalkEntry, s: seq<WalkEntry>): (r: seq<WalkEntry>)
    ensures multiset(r) == multiset(s) + multiset{x}
  {
    if s == [] then [x]
    else if Less(env, x, s[0]) then [x] + s
    else
      assert s == [s[0]] + s[1..];
      [s[0]] + Insert(env, x, s[1..])
  }

  /** `results.sort(...)`: a stable sort by the comparator. */
  function SortEntries(env: Env, s: seq<WalkEntry>): (r: seq<WalkEntry>)
    ensures multiset(r) == multiset(s)
  {
    if s == [] then []
    else
      assert s == s[..|s| - 1] + [s[|s| - 1]];
      Insert(env, s[|s| - 1], SortEntries(env, s[..|s| - 1]))
  }

  /** `walkDirectory(dirPath, depth)` on a directory's contents, from counters `st`:
      the entries it returns and the counters it leaves. */
  function WalkDir(env: Env, st: Counter, contents: DirContents, dirPath: string, rel: string, depth: int)
    : (seq<WalkEntry>, Counter)
    decreases contents, 1
  {
    if depth >= env.maxDepth then ([], st)
    else if st.entryCount >= env.maxEntries then ([], st.(truncated := true))
    else match contents
      case Unreadable => ([], st)
      case Entries(items) =>
        var (results, st') := WalkList(env, st, items, dirPath, rel, depth);
        (SortEntries(env, results), st')
  }

  /** The loop of `walkDirectory` over the remaining listing `items`. */
  function WalkList(env: Env, st: Counter, items: seq<FsNode>, dirPath: string, rel: string, depth: int)
    : (seq<WalkEntry>, Counter)
    decreases items, 0
  {
    if items == [] then ([], st)
    else if st.entryCount >= env.maxEntries then ([], st.(truncated := true))
    else
      var node := items[0];
      var childRel := ChildRel(rel, node.name);
      if env.shouldIgnore(CheckPath(childRel, node.Dir?)) then
        WalkList(env, st, items[1..], dirPath, rel, depth)
      else
        var st1 := st.(entryCount := st.entryCount + 1);
        var fullPath := JoinPath(dirPath, node.name);
        var (kids, st2) :=
          if node.Dir? then
            var (k, s) := WalkDir(env, st1, node.contents, fullPath, childRel, depth + 1);
            (Listed(k), s)
          else (NoEntries, st1);
        var entry := WalkEntry(fullPath, node.name, node.Dir?, depth + 1, kids);
        var (rest, st3) := WalkList(env, st2, items[1..], dirPath, rel, depth);
        ([entry] + rest, st3)
  }

  /** `this.rootPath.split("/").pop() || this.rootPath`. */
  function RootName(rootPath: string): string {
    var segments := Split(rootPath, '/');
    var last := segments[|segments| - 1];
    if last == "" then rootPath else last
  }

  /** The root entry and the counters after `walk()` from counters `st`. */
  function WalkFrom(env: Env, st: Counter, fs: FsNode): (WalkEntry, Counter) {
    if fs.Dir? then
      var (kids, st') := WalkDir(env, st, fs.contents, env.rootPath, "", 0);
      (WalkEntry(env.rootPath, RootName(env.rootPath), true, 0, Listed(kids)), st')
    else (WalkEntry(env.rootPath, RootName(env.rootPath), false, 0, NoEntries), st)
  }

  /** The `DirectoryWalker` object over the tree `fs` found at `env.rootPath`. */
  class DirectoryWalker {
    const env: Env
    const fs: FsNode
    var entryCount: int
    var truncated: bool

    constructor(env: Env, fs: FsNode)
      ensures this.env == env && this.fs == fs
      ensures entryCount == 0 && !truncated
    {
      this.env := env;
      this.fs := fs;
      entryCount := 0;
      truncated := false;
    }

    /** `walk()`. */
    method Walk() returns (result: WalkResult)
      modifies this
      ensures var (root, st) := WalkFrom(env, Counter(old(entryCount), old(truncated)), fs);
              result == WalkResult(root, st.truncated, st.entryCount) &&
              entryCount == st.entryCount && truncated == st.truncated
    {
      var root := WalkEntry(env.rootPath, RootName(env.rootPath), fs.Dir?, 0, NoEntries);
      if fs.Dir? {
        var kids := WalkDirectory(fs.contents, env.rootPath, "", 0);
        root := root.(children := Listed(kids));
      }
      result := WalkResult(root, truncated, entryCount);
    }

    /** `walkDirectory(dirPath, depth)` on the directory's contents. */
    method WalkDirectory(contents: DirContents, dirPath: string, rel: string, depth: int)
      returns (results: seq<WalkEntry>)
      modifies this
      ensures (results, Counter(entryCount, truncated)) ==
              WalkDir(env, Counter(old(entryCount), old(truncated)), contents, dirPath, rel, depth)
      decreases contents, 1
    {
      if depth >= env.maxDepth {
        return [];
      }
      if entryCount >= env.maxEntries {
        truncated := true;
        return [];
      }
      if contents.Unreadable? {
        return [];
      }
      results := WalkEntries(contents.items, dirPath, rel, depth);
      results := SortEntries(env, results);
    }

    /** The loop of `walkDirectory` over the listing, before the sort. */
    method WalkEntries(items: seq<FsNode>, dirPath: string, rel: string, depth: int)
      returns (results: seq<WalkEntry>)
      modifies this
      ensures (results, Counter(entryCount, truncated)) ==
              WalkList(env, Counter(old(entryCount), old(truncated)), items, dirPath, rel, depth)
      decreases items, 0
    {
      ghost var whole := WalkList(env, Counter(entryCount, truncated), items, dirPath, rel, depth);
      results := [];
      var i := 0;
      while i < |items|
        invariant 0 <= i <= |items|
        invariant Remains(env, Counter(entryCount, truncated), items, i, dirPath, rel, depth, results, whole)
        decreases |items| - i
      {
        ghost var st := Counter(entryCount, truncated);
        if entryCount >= env.maxEntries {
          WalkListFull(env, st, items, i, dirPath, rel, depth, results, whole);
          truncated := true;
          break;
        }
        var node := items[i];
        var childRel := ChildRel(rel, node.name);
        if env.shouldIgnore(CheckPath(childRel, node.Dir?)) {
          WalkListIgnored(env, st, items, i, dirPath, rel, depth, results, whole);
          i := i + 1;
          continue;
        }
        entryCount := entryCount + 1;
        ghost var st1 := Counter(entryCount, truncated);
        assert st1 == st.(entryCount := st.entryCount + 1);
        var fullPath := JoinPath(dirPath, node.name);
        var entry := WalkEntry(fullPath, node.name, node.Dir?, depth + 1, NoEntries);
        if node.Dir? {
          var kids := WalkDirectory(node.contents, fullPath, childRel, depth + 1);
          ghost var st2 := Counter(entryCount, truncated);
          assert (kids, st2) == WalkDir(env, st1, node.contents, fullPath, childRel, depth + 1);
          entry := entry.(children := Listed(kids));
          assert entry.children.items == kids;
          WalkListTaken(env, st, items, i, dirPath, rel, depth, entry, st2, results, whole);
        } else {
          WalkListTaken(env, st, items, i, dirPath, rel, depth, entry, st1, results, whole);
        }
        results := results + [entry];
        i := i + 1;
      }
      WalkListDone(env, Counter(entryCount, truncated), items, i, dirPath, rel, depth, results, whole);
    }
  }

  /** The loop invariant of `walkDirectory`: what is collected so far, followed by what
      the rest of the listing yields from the current counters, is the whole result. */
  ghost predicate Remains(env: Env, st: Counter, items: seq<FsNode>, i: nat, dirPath: string, rel: string,
                          depth: int, results: seq<WalkEntry>, whole: (seq<WalkEntry>, Counter))
    requires i <= |items|
  {
    var (rest, stEnd) := WalkList(env, st, items[i..], dirPath, rel, depth);
    results + rest == whole.0 && stEnd == whole.1
  }

  /** With the listing exhausted, the collected entries are the whole result. */
  lemma WalkListDone(env: Env, st: Counter, items: seq<FsNode>, i: nat, dirPath: string, rel: string,
                     depth: int, results: seq<WalkEntry>, whole: (seq<WalkEntry>, Counter))
    requires i <= |items|
    requires i == |items| || whole == (results, st)
    requires i == |items| ==> Remains(env, st, items, i, dirPath, rel, depth, results, whole)
    ensures whole == (results, st)
  {
    if i == |items| {
      assert items[i..] == [];
      assert WalkList(env, st, [], dirPath, rel, depth) == ([], st);
      assert results + [] == results;
    }
  }

  /** The loop stops, marking the walk truncated, once the budget is spent. */
  lemma WalkListFull(env: Env, st: Counter, items: seq<FsNode>, i: nat, dirPath: string, rel: string,
                     depth: int, results: seq<WalkEntry>, whole: (seq<WalkEntry>, Counter))
    requires i < |items| && st.entryCount >= env.maxEntries
    requires Remains(env, st, items, i, dirPath, rel, depth, results, whole)
    ensures whole == (results, st.(truncated := true))
  {
    assert items[i..] != [];
    assert WalkList(env, st, items[i..], dirPath, rel, depth) == ([], st.(truncated := true));
    assert results + [] == results;
  }

  /** An ignored entry is skipped without being counted. */
  lemma WalkListIgnored(env: Env, st: Counter, items: seq<FsNode>, i: nat, dirPath: string, rel: string,
                        depth: int, results: seq<WalkEntry>, whole: (seq<WalkEntry>, Counter))
    requires i < |items| && st.entryCount < env.maxEntries
    requires env.shouldIgnore(CheckPath(ChildRel(rel, items[i].name), items[i].Dir?))
    requires Remains(env, st, items, i, dirPath, rel, depth, results, whole)
    ensures Remains(env, st, items, i + 1, dirPath, rel, depth, results, whole)
  {
    assert items[i..][0] == items[i];
    assert items[i..][1..] == items[i + 1..];
  }

  /** Any other entry is counted, walked when it is a directory, and kept. */
  lemma WalkListTaken(env: Env, st: Counter, items: seq<FsNode>, i: nat, dirPath: string, rel: string,
                      depth: int, entry: WalkEntry, st2: Counter,
                      results: seq<WalkEntry>, whole: (seq<WalkEntry>, Counter))
    requires i < |items| && st.entryCount < env.maxEntries
    requires !env.shouldIgnore(CheckPath(ChildRel(rel, items[i].name), items[i].Dir?))
    requires entry.path == JoinPath(dirPath, items[i].name) && entry.name == items[i].name
    requires entry.isDirectory == items[i].Dir? && entry.depth == depth + 1
    requires items[i].File? ==> entry.children == NoEntries && st2 == st.(entryCount := st.entryCount + 1)
    requires items[i].Dir? ==>
               entry.children.Listed? &&
               (entry.children.items, st2) ==
               WalkDir(env, st.(entryCount := st.entryCount + 1), items[i].contents,
                       JoinPath(dirPath, items[i].name), ChildRel(rel, items[i].name), depth + 1)
    requires Remains(env, st, items, i, dirPath, rel, depth, results, whole)
    ensures Remains(env, st2, items, i + 1, dirPath, rel, depth, results + [entry], whole)
  {
    assert items[i..][0] == items[i];
    assert items[i..][1..] == items[i + 1..];
    var (rest, st3) := WalkList(env, st2, items[i + 1..], dirPath, rel, depth);
    assert WalkList(env, st, items[i..], dirPath, rel, depth) == ([entry] + rest, st3);
    assert results + ([entry] + rest) == (results + [entry]) + rest;
  }

  /** The number of entries of a list, at every depth. */
  function CountEntries(s: seq<WalkEntry>): nat {
    if s == [] then 0 else EntrySize(s[0]) + CountEntries(s[1..])
  }

  function EntrySize(e: WalkEntry): nat {
    1 + match e.children
        case NoEntries => 0
        case Listed(items) => CountEntries(items)
  }

  lemma {:induction false} CountInsert(env: Env, x: WalkEntry, s: seq<WalkEntry>)
    ensures CountEntries(Insert(env, x, s)) == CountEntries(s) + EntrySize(x)
  {
    if s != [] && !Less(env, x, s[0]) {
      CountInsert(env, x, s[1..]);
      assert Insert(env, x, s) == [s[0]] + Insert(env, x, s[1..]);
      assert ([s[0]] + Insert(env, x, s[1..]))[1..] == Insert(env, x, s[1..]);
    } else if s != [] {
      assert ([x] + s)[1..] == s;
    }
  }

  /** Sorting neither adds nor drops entries. */
  lemma {:induction false} CountSort(env: Env, s: seq<WalkEntry>)
    ensures CountEntries(SortEntries(env, s)) == CountEntries(s)
  {
    if s != [] {
      var n := |s| - 1;
      var init, x := s[..n], s[n];
      assert init + [x] == s;
      CountSort(env, init);
      var sortedInit := SortEntries(env, init);
      assert SortEntries(env, s) == Insert(env, x, sortedInit);
      CountInsert(env, x, sortedInit);
      CountSnoc(init, x);
    }
  }

  lemma {:induction false} CountSnoc(s: seq<WalkEntry>, x: WalkEntry)
    ensures CountEntries(s + [x]) == CountEntries(s) + EntrySize(x)
  {
    if s == [] {
      assert [x][1..] == [];
    } else {
      assert (s + [x])[1..] == s[1..] + [x];
      CountSnoc(s[1..], x);
    }
  }

  function Max(a: int, b: int): int {
    if a < b then b else a
  }

  /** A returned entry at depth `d`: below the depth limit, with a children list exactly
      when it is a directory, an empty one at the limit, and the same below it. */
  predicate EntryShaped(env: Env, e: WalkEntry, d: int)
    decreases e
  {
    && e.depth == d && d <= env.maxDepth
    && (e.isDirectory <==> e.children.Listed?)
    && (e.children.Listed? ==>
          && (d == env.maxDepth ==> e.children.items == [])
          && forall c :: c in e.children.items ==> EntryShaped(env, c, d + 1))
  }

  /** Neither the entry nor anything below it has a path the ignore rules reject;
      `rel` is the relative path of the entry's directory. */
  predicate EntryKept(env: Env, e: WalkEntry, rel: string)
    decreases e
  {
    && !env.shouldIgnore(CheckPath(ChildRel(rel, e.name), e.isDirectory))
    && (e.children.Listed? ==>
          forall c :: c in e.children.items ==> EntryKept(env, c, ChildRel(rel, e.name)))
  }

  /** What a walk of a listing guarantees about its entries and the counters:
      - the count grows by exactly the number of entries returned, at every depth;
      - it never passes the budget, unless it had already passed it;
      - `truncated` never resets, and is only set when the budget is spent;
      - every entry is shaped as `EntryShaped` says and survives the ignore rules. */
  ghost predicate WalkOk(env: Env, st: Counter, r: seq<WalkEntry>, st': Counter, rel: string, d: int) {
    && st'.entryCount == st.entryCount + CountEntries(r)
    && st'.entryCount <= Max(st.entryCount, env.maxEntries)
    && (st.truncated ==> st'.truncated)
    && (st'.truncated ==> st.truncated || st'.entryCount >= env.maxEntries)
    && (forall e :: e in r ==> EntryShaped(env, e, d))
    && (forall e :: e in r ==> EntryKept(env, e, rel))
  }

  lemma {:induction false} WalkDirOk(env: Env, st: Counter, contents: DirContents, dirPath: string, rel: string, depth: int)
    ensures WalkOk(env, st, WalkDir(env, st, contents, dirPath, rel, depth).0,
                   WalkDir(env, st, contents, dirPath, rel, depth).1, rel, depth + 1)
    ensures depth >= env.maxDepth ==> WalkDir(env, st, contents, dirPath, rel, depth) == ([], st)
    ensures depth < env.maxDepth && st.entryCount >= env.maxEntries ==>
              WalkDir(env, st, contents, dirPath, rel, depth) == ([], st.(truncated := true))
    decreases contents, 1
  {
    if depth < env.maxDepth && st.entryCount < env.maxEntries && contents.Entries? {
      var (r, st') := WalkList(env, st, contents.items, dirPath, rel, depth);
      WalkListOk(env, st, contents.items, dirPath, rel, depth);
      CountSort(env, r);
      var sorted := SortEntries(env, r);
      forall e | e in sorted ensures e in r {
        assert e in multiset(sorted);
      }
    }
  }

  lemma {:induction false} WalkListOk(env: Env, st: Counter, items: seq<FsNode>, dirPath: string, rel: string, depth: int)
    requires depth < env.maxDepth
    ensures WalkOk(env, st, WalkList(env, st, items, dirPath, rel, depth).0,
                   WalkList(env, st, items, dirPath, rel, depth).1, rel, depth + 1)
    decreases items, 0
  {
    if items != [] && st.entryCount < env.maxEntries {
      var node := items[0];
      var childRel := ChildRel(rel, node.name);
      if env.shouldIgnore(CheckPath(childRel, node.Dir?)) {
        WalkListOk(env, st, items[1..], dirPath, rel, depth);
      } else {
        var st1 := st.(entryCount := st.entryCount + 1);
        var fullPath := JoinPath(dirPath, node.name);
        var kids: EntryChildren;
        var st2: Counter;
        if node.Dir? {
          var (k, s) := WalkDir(env, st1, node.contents, fullPath, childRel, depth + 1);
          WalkDirOk(env, st1, node.contents, fullPath, childRel, depth + 1);
          kids, st2 := Listed(k), s;
        } else {
          kids, st2 := NoEntries, st1;
        }
        var entry := WalkEntry(fullPath, node.name, node.Dir?, depth + 1, kids);
        var (rest, st3) := WalkList(env, st2, items[1..], dirPath, rel, depth);
        WalkListOk(env, st2, items[1..], dirPath, rel, depth);
        assert WalkList(env, st, items, dirPath, rel, depth) == ([entry] + rest, st3);
        assert EntrySize(entry) == st2.entryCount - st.entryCount;
        assert ([entry] + rest)[1..] == rest;
        assert EntryShaped(env, entry, depth + 1);
        assert EntryKept(env, entry, rel);
        forall e | e in [entry] + rest
          ensures EntryShaped(env, e, depth + 1) && EntryKept(env, e, rel)
        {
          if e != entry {
            assert e in rest;
          }
        }
      }
    }
  }

  /** `nameLe` is a total preorder, as a collation is. */
  ghost predicate TotalPreorder(le: (string, string) -> bool) {
    && (forall a, b :: le(a, b) || le(b, a))
    && (forall a, b, c :: le(a, b) && le(b, c) ==> le(a, c))
  }

  /** Directories come before files, and within each group the names ascend. */
  predicate Sorted(env: Env, s: seq<WalkEntry>) {
    forall i, j :: 0 <= i < j < |s| ==>
      && (s[j].isDirectory ==> s[i].isDirectory)
      && (s[i].isDirectory == s[j].isDirectory ==> env.nameLe(s[i].name, s[j].name))
  }

  lemma LessTransitive(env: Env, a: WalkEntry, b: WalkEntry, c: WalkEntry)
    requires TotalPreorder(env.nameLe)
    requires Less(env, a, b) && Less(env, b, c)
    ensures Less(env, a, c)
  {
    if a.isDirectory == b.isDirectory && b.isDirectory == c.isDirectory {
      assert env.nameLe(a.name, b.name);
    }
  }

  lemma SortedTail(env: Env, s: seq<WalkEntry>)
    requires s != [] && Sorted(env, s)
    ensures Sorted(env, s[1..])
  {
    forall i, j | 0 <= i < j < |s[1..]|
      ensures (s[1..][j].isDirectory ==> s[1..][i].isDirectory)
      ensures (s[1..][i].isDirectory == s[1..][j].isDirectory ==> env.nameLe(s[1..][i].name, s[1..][j].name))
    {
      assert s[1..][i] == s[i + 1] && s[1..][j] == s[j + 1];
    }
  }

  /** Putting `x` in front of a sorted list that it precedes keeps it sorted. */
  lemma ConsSorted(env: Env, x: WalkEntry, s: seq<WalkEntry>)
    requires TotalPreorder(env.nameLe) && Sorted(env, s)
    requires forall y :: y in s ==> !Less(env, y, x)
    ensures Sorted(env, [x] + s)
  {
    var r := [x] + s;
    forall i, j | 0 <= i < j < |r|
      ensures (r[j].isDirectory ==> r[i].isDirectory)
      ensures (r[i].isDirectory == r[j].isDirectory ==> env.nameLe(r[i].name, r[j].name))
    {
      if i == 0 {
        assert r[j] in s;
      } else {
        assert r[i] == s[i - 1] && r[j] == s[j - 1];
      }
    }
  }

  lemma {:induction false} InsertSorted(env: Env, x: WalkEntry, s: seq<WalkEntry>)
    requires TotalPreorder(env.nameLe) && Sorted(env, s)
    ensures Sorted(env, Insert(env, x, s))
  {
    if s == [] {
    } else if Less(env, x, s[0]) {
      forall y | y in s ensures !Less(env, y, x) {
        var k :| 0 <= k < |s| && s[k] == y;
        if Less(env, y, x) {
          LessTransitive(env, y, x, s[0]);
        }
      }
      ConsSorted(env, x, s);
    } else {
      var t := Insert(env, x, s[1..]);
      SortedTail(env, s);
      InsertSorted(env, x, s[1..]);
      forall y | y in t ensures !Less(env, y, s[0]) {
        assert y in multiset(t);
        if y != x {
          assert y in multiset(s[1..]);
          var k :| 0 <= k < |s[1..]| && s[1..][k] == y;
          assert s[k + 1] == y;
        }
      }
      ConsSorted(env, s[0], t);
    }
  }

  /** With a collation that is a total preorder, every sorted listing puts directories
      first and names in ascending order within each group. */
  lemma {:induction false} SortEntriesSorted(env: Env, s: seq<WalkEntry>)
    requires TotalPreorder(env.nameLe)
    ensures Sorted(env, SortEntries(env, s))
  {
    if s != [] {
      SortEntriesSorted(env, s[..|s| - 1]);
      InsertSorted(env, s[|s| - 1], SortEntries(env, s[..|s| - 1]));
    }
  }

  /** Every listing at every level of the walk is sorted. */
  predicate EntrySorted(env: Env, e: WalkEntry)
    decreases e
  {
    e.children.Listed? ==>
      Sorted(env, e.children.items) &&
      forall c :: c in e.children.items ==> EntrySorted(env, c)
  }

  lemma {:induction false} WalkDirSorted(env: Env, st: Counter, contents: DirContents, dirPath: string, rel: string, depth: int)
    requires TotalPreorder(env.nameLe)
    ensures Sorted(env, WalkDir(env, st, contents, dirPath, rel, depth).0)
    ensures forall e :: e in WalkDir(env, st, contents, dirPath, rel, depth).0 ==> EntrySorted(env, e)
    decreases contents, 1
  {
    if depth < env.maxDepth && st.entryCount < env.maxEntries && contents.Entries? {
      var (r, st') := WalkList(env, st, contents.items, dirPath, rel, depth);
      WalkListSorted(env, st, contents.items, dirPath, rel, depth);
      SortEntriesSorted(env, r);
      var sorted := SortEntries(env, r);
      forall e | e in sorted ensures EntrySorted(env, e) {
        assert e in multiset(sorted);
        assert e in r;
      }
    }
  }

  lemma {:induction false} WalkListSorted(env: Env, st: Counter, items: seq<FsNode>, dirPath: string, rel: string, depth: int)
    requires TotalPreorder(env.nameLe)
    ensures forall e :: e in WalkList(env, st, items, dirPath, rel, depth).0 ==> EntrySorted(env, e)
    decreases items, 0
  {
    if items != [] && st.entryCount < env.maxEntries {
      var node := items[0];
      var childRel := ChildRel(rel, node.name);
      if env.shouldIgnore(CheckPath(childRel, node.Dir?)) {
        WalkListSorted(env, st, items[1..], dirPath, rel, depth);
      } else {
        var st1 := st.(entryCount := st.entryCount + 1);
        var fullPath := JoinPath(dirPath, node.name);
        var kids: EntryChildren;
        var st2: Counter;
        if node.Dir? {
          var (k, s) := WalkDir(env, st1, node.contents, fullPath, childRel, depth + 1);
          WalkDirSorted(env, st1, node.contents, fullPath, childRel, depth + 1);
          kids, st2 := Listed(k), s;
        } else {
          kids, st2 := NoEntries, st1;
        }
        var entry := WalkEntry(fullPath, node.name, node.Dir?, depth + 1, kids);
        var (rest, st3) := WalkList(env, st2, items[1..], dirPath, rel, depth);
        WalkListSorted(env, st2, items[1..], dirPath, rel, depth);
        assert WalkList(env, st, items, dirPath, rel, depth) == ([entry] + rest, st3);
        assert EntrySorted(env, entry);
        forall e | e in [entry] + rest ensures EntrySorted(env, e) {
          if e != entry {
            assert e in rest;
          }
        }
      }
    }
  }

  /** A fresh walker's `walk()`: the root sits at depth 0 under its path's last segment,
      `totalEntries` is the number of entries below the root, at most `maxEntries`
      (or none when that is not positive), and `truncated` is only set when the budget
      was spent. */
  lemma WalkFresh(env: Env, fs: FsNode)
    ensures var (root, st) := WalkFrom(env, Counter(0, false), fs);
            && root.depth == 0 && root.path == env.rootPath && root.name == RootName(env.rootPath)
            && (root.isDirectory <==> fs.Dir?) && (root.children.Listed? <==> fs.Dir?)
            && st.entryCount == EntrySize(root) - 1
            && st.entryCount <= Max(0, env.maxEntries)
            && (st.truncated ==> st.entryCount >= env.maxEntries)
            && (root.children.Listed? ==>
                  forall e :: e in root.children.items ==> EntryShaped(env, e, 1) && EntryKept(env, e, ""))
  {
    if fs.Dir? {
      WalkDirOk(env, Counter(0, false), fs.contents, env.rootPath, "", 0);
    }
  }

  /** The root's name is its path's last `/`-separated segment, or the whole path when
      that segment is empty (a trailing `/`). */
  lemma RootNameSegment(rootPath: string)
    ensures var segments := Split(rootPath, '/');
            RootName(rootPath) == (if segments[|segments| - 1] == "" then rootPath else segments[|segments| - 1])
    ensures '/' !in rootPath ==> RootName(rootPath) == rootPath
    ensures RootName(rootPath) == rootPath || '/' !in RootName(rootPath)
  {
    if '/' !in rootPath {
      SplitWithoutSeparator(rootPath, '/');
    }
  }
}
