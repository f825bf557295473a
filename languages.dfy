/**
 * The language registry (src/parser/languages.ts): a module-level object from file
 * extension to language configuration, filled by `registerLanguage` and read by
 * `getLanguageByExtension`.
 */
module Languages {
  import opened Wrappers

  /** The one custom extractor the repository registers: the Markdown outline. */
  datatype CustomExtractor = MarkdownOutline

  /** A language configuration; the grammar file and query are opaque data here. */
  datatype LanguageConfig = LanguageConfig(
    name: string,
    wasmFile: Option<string>,
    extensions: seq<string>,
    queryString: Option<string>,
    docCommentPrefixes: seq<string>,
    customExtractor: Option<CustomExtractor>)

  /** The registry after each extension of `exts` has been pointed at `c`. */
  function Assign(m: map<string, LanguageConfig>, exts: seq<string>, c: LanguageConfig)
    : (r: map<string, LanguageConfig>)
    ensures forall e :: e in exts ==> e in r && r[e] == c
    ensures forall e :: e !in exts ==> (e in r <==> e in m)
    ensures forall e :: e !in exts && e in m ==> r[e] == m[e]
  {
    map e | e in m.Keys + (set x | x in exts) :: if e in exts then c else m[e]
  }

  /** Pointing one more extension at `c`. */
  lemma AssignSnoc(m: map<string, LanguageConfig>, exts: seq<string>, e: string, c: LanguageConfig)
    ensures Assign(m, exts + [e], c) == Assign(m, exts, c)[e := c]
  {
    var l := Assign(m, exts + [e], c);
    var r := Assign(m, exts, c)[e := c];
    forall x ensures x in l <==> x in r {
      assert x in exts + [e] <==> x in exts || x == e;
    }
    forall x | x in l ensures l[x] == r[x] {
      assert x in exts + [e] <==> x in exts || x == e;
    }
  }

  /** The registry after `registerLanguage(c)`. */
  function Registered(m: map<string, LanguageConfig>, c: LanguageConfig): map<string, LanguageConfig> {
    Assign(m, c.extensions, c)
  }

  /** The registry after registering `cs` in order, starting from `m`. */
  function RegisterAll(m: map<string, LanguageConfig>, cs: seq<LanguageConfig>): map<string, LanguageConfig> {
    if cs == [] then m else Registered(RegisterAll(m, cs[..|cs| - 1]), cs[|cs| - 1])
  }

  /** Configuration `i` of `cs` lists extension `e`. */
  predicate Lists(cs: seq<LanguageConfig>, i: int, e: string) {
    0 <= i < |cs| && e in cs[i].extensions
  }

  /** The mutable registry object. */
  class Registry {
    var entries: map<string, LanguageConfig>

    /** `languageRegistry = {}`. */
    constructor()
      ensures entries == map[]
    {
      entries := map[];
    }

    /** `registerLanguage(config)`: every extension of `config` now maps to it. */
    method Register(config: LanguageConfig)
      modifies this
      ensures entries == Registered(old(entries), config)
    {
      ghost var before := entries;
      for i := 0 to |config.extensions|
        invariant entries == Assign(before, config.extensions[..i], config)
      {
        AssignSnoc(before, config.extensions[..i], config.extensions[i], config);
        assert config.extensions[..i + 1] == config.extensions[..i] + [config.extensions[i]];
        entries := entries[config.extensions[i] := config];
      }
      assert config.extensions[..|config.extensions|] == config.extensions;
    }

    /** `getLanguageByExtension(extension)`: an exact-key lookup, `None` (null) when the
        extension was never registered. */
    function Lookup(extension: string): (r: Option<LanguageConfig>)
      reads this
      ensures r.Some? <==> extension in entries
      ensures r.Some? ==> r.value == entries[extension]
    {
      if extension in entries then Some(entries[extension]) else None
    }
  }

  /** After `registerLanguage(c)` every extension of `c` resolves to `c`, and every other
      extension keeps the mapping it had. */
  lemma RegisterLookup(m: map<string, LanguageConfig>, c: LanguageConfig, e: string)
    ensures e in c.extensions ==> e in Registered(m, c) && Registered(m, c)[e] == c
    ensures e !in c.extensions ==>
              (e in Registered(m, c) <==> e in m) &&
              (e in m ==> Registered(m, c)[e] == m[e])
  {
  }

  /** Over any sequence of registrations from an empty registry, an extension is
      unregistered exactly when no configuration listed it, and otherwise resolves to
      the last configuration that listed it. */
  lemma {:induction false} RegisterAllLookup(cs: seq<LanguageConfig>, e: string)
    ensures e in RegisterAll(map[], cs) <==> exists i :: Lists(cs, i, e)
  {
    if cs != [] {
      var n := |cs| - 1;
      var init := cs[..n];
      RegisterAllLookup(init, e);
      assert RegisterAll(map[], cs) == Registered(RegisterAll(map[], init), cs[n]);
      RegisterLookup(RegisterAll(map[], init), cs[n], e);
      if Lists(cs, n, e) {
        assert e in RegisterAll(map[], cs);
      } else if e in RegisterAll(map[], cs) {
        var i :| Lists(init, i, e);
        assert init[i] == cs[i];
        assert Lists(cs, i, e);
      }
      forall i | Lists(cs, i, e) && i < n ensures Lists(init, i, e) {
        assert init[i] == cs[i];
      }
    }
  }

  /** The configuration found for an extension is the last one listing it. */
  lemma {:induction false} RegisterAllLast(cs: seq<LanguageConfig>, e: string, i: int)
    requires Lists(cs, i, e) && forall j :: i < j < |cs| ==> !Lists(cs, j, e)
    ensures e in RegisterAll(map[], cs) && RegisterAll(map[], cs)[e] == cs[i]
  {
    var n := |cs| - 1;
    var init := cs[..n];
    assert RegisterAll(map[], cs) == Registered(RegisterAll(map[], init), cs[n]);
    RegisterLookup(RegisterAll(map[], init), cs[n], e);
    if i < n {
      assert !Lists(cs, n, e);
      assert init[i] == cs[i];
      forall j | i < j < |init| ensures !Lists(init, j, e) {
        assert init[j] == cs[j];
        assert !Lists(cs, j, e);
      }
      RegisterAllLast(init, e, i);
    }
  }

  /** When two configurations share an extension, the later registration wins. */
  lemma LastRegistrationWins(m: map<string, LanguageConfig>, a: LanguageConfig, b: LanguageConfig, e: string)
    requires e in a.extensions && e in b.extensions
    ensures e in Registered(Registered(m, a), b) && Registered(Registered(m, a), b)[e] == b
  {
  }

  /** The Markdown configuration of src/parser/queries/markdown.ts. */
  function MarkdownLanguage(): LanguageConfig {
    LanguageConfig("markdown", None, [".md", ".mdx"], None, [], Some(MarkdownOutline))
  }

  /** Once Markdown is registered, `.md` and `.mdx` resolve to it; the lookup is exact
      and case-sensitive, with the leading dot: `.MD` and `md` are not registered by it. */
  lemma MarkdownLookup(m: map<string, LanguageConfig>)
    ensures Registered(m, MarkdownLanguage())[".md"].name == "markdown"
    ensures Registered(m, MarkdownLanguage())[".mdx"].name == "markdown"
    ensures ".MD" !in Registered(map[], MarkdownLanguage())
    ensures "md" !in Registered(map[], MarkdownLanguage())
  {
    assert ".md" in MarkdownLanguage().extensions;
    assert ".mdx" in MarkdownLanguage().extensions;
    assert ".MD" != ".md" && ".MD" != ".mdx";
    assert ".MD" !in MarkdownLanguage().extensions;
    assert "md" !in MarkdownLanguage().extensions;
  }
}
