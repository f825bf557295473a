/**
 * Symbol extraction and hierarchy (extractor.ts).
 *
 * The syntax tree is an arena: a node's id is its index, and every node records its type,
 * its text, the row it starts on, its parent and its previous named sibling. Two measures
 * make the parent and sibling links acyclic: a parent is shallower (`depth`) and a previous
 * sibling has a smaller `siblingIndex`. The query engine's output is given as an ordered
 * list of (label, node) captures.
 */
module Extractor {
  import opened Wrappers
  import opened Sequences
  import opened Strings
  import opened Types
  import opened OrderedMaps

  datatype Node = Node(
    nodeType: string,
    text: string,
    startRow: nat,
    parent: Option<nat>,
    previousNamedSibling: Option<nat>,
    depth: nat,
    siblingIndex: nat)

  /** One query capture: its label (`name`) and the id of the captured node. */
  datatype Capture = Capture(name: string, node: nat)

  /** Every link stays inside the arena and the two measures decrease along the links. */
  predicate ValidTree(t: seq<Node>) {
    && (forall i {:trigger t[i].parent} :: 0 <= i < |t| && t[i].parent.Some? ==>
          t[i].parent.value < |t| && t[t[i].parent.value].depth < t[i].depth)
    && (forall i {:trigger t[i].previousNamedSibling} ::
          0 <= i < |t| && t[i].previousNamedSibling.Some? ==>
          t[i].previousNamedSibling.value < |t|
          && t[t[i].previousNamedSibling.value].siblingIndex < t[i].siblingIndex)
  }

  /** Every capture names a node of the tree. */
  predicate ValidCaptures(t: seq<Node>, caps: seq<Capture>) {
    forall j :: 0 <= j < |caps| ==> caps[j].node < |t|
  }

  /** The largest depth of the arena, a bound for the nesting of anchors. */
  function MaxDepth(t: seq<Node>): (m: nat)
    ensures forall i :: 0 <= i < |t| ==> t[i].depth <= m
  {
    if t == [] then 0
    else
      var m := MaxDepth(t[1..]);
      assert forall i :: 1 <= i < |t| ==> t[i] == t[1..][i - 1];
      if t[0].depth > m then t[0].depth else m
  }

  // ---------------------------------------------------------------------------
  // Kind classification

  /** The kind of a capture, chosen by exact equality of its label; `module` and
      `namespace` both give `namespace`, and every other label, `class.name` included,
      gives `function`. */
  function KindOfCapture(captureName: string): (k: SymbolKind)
    ensures k != Module && k != Section
    ensures k != Function ==> captureName == KindName(k) || (k == Namespace && captureName == "module")
    ensures captureName == "function" ==> k == Function
  {
    if captureName == "class" then Class
    else if captureName == "interface" then Interface
    else if captureName == "function" then Function
    else if captureName == "method" then Method
    else if captureName == "type" then Type
    else if captureName == "enum" then Enum
    else if captureName == "namespace" || captureName == "module" then Namespace
    else if captureName == "struct" then Struct
    else if captureName == "trait" then Trait
    else if captureName == "constant" then Constant
    else if captureName == "package" then Package
    else Function
  }

  /** Each kind but `module` and `section` is the kind of the captureName that spells it. */
  lemma KindOfOwnLabel(k: SymbolKind)
    requires k != Module && k != Section
    ensures KindOfCapture(KindName(k)) == k
  {
  }

  /** Labels with a `.name` suffix get no special treatment. */
  lemma NameSuffixedLabelIsFunction()
    ensures KindOfCapture("class.name") == Function
    ensures KindOfCapture("method.name") == Function
    ensures KindOfCapture("module") == Namespace
  {
  }

  predicate IsCallable(k: SymbolKind) {
    k == Function || k == Method
  }

  // ---------------------------------------------------------------------------
  // Signature

  const MaxSignatureLength: nat := 200

  /** The display limit: a line longer than 200 characters keeps its first 197 and
      gets `...` appended. */
  function ClipSignature(line: string): (sig: string)
    ensures |sig| <= MaxSignatureLength
    ensures |line| <= MaxSignatureLength ==> sig == line
    ensures |line| > MaxSignatureLength ==> |sig| == MaxSignatureLength
                                            && sig[..197] == line[..197] && sig[197..] == "..."
  {
    if |line| > MaxSignatureLength then line[..197] + "..." else line
  }

  /** Clipping adds no character but the dots. */
  lemma ClipKeepsOut(line: string, c: char)
    requires c !in line && c != '.'
    ensures c !in ClipSignature(line)
  {
    if |line| > MaxSignatureLength {
      var p := line[..197];
      forall i | 0 <= i < |p| ensures p[i] != c {
        assert p[i] == line[i];
      }
      assert ClipSignature(line) == p + "...";
    }
  }

  /** Line `row` of the source (0-based); a row past the end reads as the empty line. */
  function SourceLine(source: string, row: nat): (line: string)
    ensures '\n' !in line
  {
    var lines := Split(source, '\n');
    if row < |lines| then lines[row] else ""
  }

  /** `getNodeSignature`: the trimmed source line the node starts on, clipped to 200. */
  function NodeSignature(source: string, row: nat): (sig: string)
    ensures |sig| <= MaxSignatureLength
    ensures '\n' !in sig
    ensures |Trim(SourceLine(source, row))| <= MaxSignatureLength ==>
              sig == Trim(SourceLine(source, row))
  {
    var line := Trim(SourceLine(source, row));
    var sig := ClipSignature(line);
    TrimKeepsOut(SourceLine(source, row), '\n');
    ClipKeepsOut(line, '\n');
    sig
  }

  // ---------------------------------------------------------------------------
  // Docblock

  /** A named sibling that is a comment whose trimmed text begins with a doc prefix. */
  predicate IsDocComment(t: seq<Node>, j: nat, prefixes: seq<string>)
    requires j < |t|
  {
    t[j].nodeType == "comment" && HasDocPrefix(Trim(t[j].text), prefixes)
  }

  /** The text begins with one of the language's doc-comment prefixes. */
  predicate HasDocPrefix(text: string, prefixes: seq<string>) {
    exists p :: p in prefixes && StartsWith(text, p)
  }

  /** The trimmed texts of the doc comments directly above `sibling` (itself included),
      in source order: the walk back over previous named siblings stops at the first one
      that is not a doc comment. */
  function DocComments(t: seq<Node>, sibling: Option<nat>, prefixes: seq<string>): seq<string>
    requires ValidTree(t)
    requires sibling.Some? ==> sibling.value < |t|
    decreases if sibling.Some? then t[sibling.value].siblingIndex + 1 else 0
  {
    match sibling
    case None => []
    case Some(j) =>
      if IsDocComment(t, j, prefixes)
      then DocComments(t, t[j].previousNamedSibling, prefixes) + [Trim(t[j].text)]
      else []
  }

  /** The regex `^\s*\*\s?`: leading blanks, one `*`, and at most one blank after it. */
  function StripStarPrefix(s: string): string {
    var n := LeadingBlanks(s);
    if n < |s| && s[n] == '*' then
      if n + 1 < |s| && IsSpace(s[n + 1]) then s[n + 2..] else s[n + 1..]
    else s
  }

  /** The marker clean-up of one comment: a leading slash-star-star, a trailing
      star-slash, a leading triple slash and a leading star are removed in that order,
      then the rest is trimmed. */
  function StripMarkers(c: string): string {
    var a := if StartsWith(c, "/**") then c[3..] else c;
    var b := if EndsWith(a, "*/") then a[..|a| - 2] else a;
    var d := if StartsWith(b, "///") then b[3..] else b;
    Trim(StripStarPrefix(d))
  }

  /** The cleaned comments joined by newlines and trimmed as a whole. */
  function CleanDocblock(comments: seq<string>): string {
    Trim(Join(seq(|comments|, i requires 0 <= i < |comments| => StripMarkers(comments[i])), "\n"))
  }

  /** `extractDocblock` as a value: `None` (the source's `null`) when no doc comment
      precedes the node. */
  function Docblock(t: seq<Node>, node: nat, prefixes: seq<string>): (doc: Option<string>)
    requires ValidTree(t) && node < |t|
    ensures doc.None? <==> DocComments(t, t[node].previousNamedSibling, prefixes) == []
  {
    var comments := DocComments(t, t[node].previousNamedSibling, prefixes);
    if comments == [] then None else Some(CleanDocblock(comments))
  }

  /** The walk back over the previous named siblings, collecting the trimmed doc
      comments in source order. */
  method CollectDocComments(t: seq<Node>, node: nat, prefixes: seq<string>)
    returns (comments: seq<string>)
    requires ValidTree(t) && node < |t|
    ensures comments == DocComments(t, t[node].previousNamedSibling, prefixes)
  {
    var sibling: Option<nat> := t[node].previousNamedSibling;
    comments := [];
    ghost var full := DocComments(t, sibling, prefixes);
    while sibling.Some?
      invariant sibling.Some? ==> sibling.value < |t|
      invariant full == DocComments(t, sibling, prefixes) + comments
      decreases if sibling.Some? then t[sibling.value].siblingIndex + 1 else 0
    {
      var j := sibling.value;
      DocCommentsStep(t, j, prefixes, comments);
      if t[j].nodeType == "comment" {
        var text := Trim(t[j].text);
        if HasDocPrefix(text, prefixes) {
          comments := [text] + comments;
          sibling := t[j].previousNamedSibling;
        } else {
          break;
        }
      } else {
        break;
      }
    }
  }

  /** One step of the walk: a doc comment moves from the unvisited part to the front
      of the collected part, and anything else ends the walk. */
  lemma DocCommentsStep(t: seq<Node>, j: nat, prefixes: seq<string>, comments: seq<string>)
    requires ValidTree(t) && j < |t|
    ensures IsDocComment(t, j, prefixes) ==>
              DocComments(t, Some(j), prefixes) + comments
              == DocComments(t, t[j].previousNamedSibling, prefixes) + ([Trim(t[j].text)] + comments)
    ensures !IsDocComment(t, j, prefixes) ==> DocComments(t, Some(j), prefixes) + comments == comments
  {
    var rest := DocComments(t, t[j].previousNamedSibling, prefixes);
    if IsDocComment(t, j, prefixes) {
      assert DocComments(t, Some(j), prefixes) == rest + [Trim(t[j].text)];
      AppendAssoc<string>(rest, [Trim(t[j].text)], comments);
    } else {
      assert DocComments(t, Some(j), prefixes) == [];
      assert [] + comments == comments;
    }
  }


  /** `extractDocblock`: the collected comments cleaned, or `None` when there are none. */
  method ExtractDocblock(t: seq<Node>, node: nat, prefixes: seq<string>)
    returns (doc: Option<string>)
    requires ValidTree(t) && node < |t|
    ensures doc == Docblock(t, node, prefixes)
  {
    var comments := CollectDocComments(t, node, prefixes);
    if |comments| == 0 {
      return None;
    }
    doc := Some(CleanDocblock(comments));
  }

  /** A one-line block comment loses its markers and the blanks around its text. */
  lemma GreetingMarkers()
    ensures StripMarkers("/** Greets a person */") == "Greets a person"
  {
    var c := "/** Greets a person */";
    assert c[..3] == "/**";
    var a := c[3..];
    assert a[|a| - 2..] == "*/";
    var b := a[..|a| - 2];
    assert b == " Greets a person ";
    assert !StartsWith(b, "///") by { assert b[0] != "///"[0]; }
    assert LeadingBlanks(b) == 1 by {
      assert IsSpace(b[0]) && !IsSpace(b[1]);
      assert b[1..][0] == b[1];
    }
    assert StripStarPrefix(b) == b;
    var r := Trim(b);
    TrimBlanks(b);
    assert |r| == 15 by {
      assert !IsSpace(b[15]) && IsSpace(b[16]);
      assert r[|r| - 1] == b[|r|];
    }
    assert r == b[1..16];
  }

  /** The docblock of a node preceded by that one comment. */
  lemma GreetingDocblock()
    ensures CleanDocblock(["/** Greets a person */"]) == "Greets a person"
  {
    var c := "/** Greets a person */";
    GreetingMarkers();
    var cleaned := seq(1, i requires 0 <= i < 1 => StripMarkers([c][i]));
    assert cleaned == ["Greets a person"];
    var g := "Greets a person";
    assert Join(cleaned, "\n") == g;
    assert LeadingBlanks(g) == 0 by { assert !IsSpace(g[0]); }
    TrimBlanks(g);
    assert |Trim(g)| == 15 by { assert !IsSpace(g[14]); }
    assert Trim(g) == g[0..15];
  }

  /** A doc comment separated from the node by anything that is not a doc comment does
      not contribute: only the adjacent qualifying comment is taken. */
  lemma {:induction false} DocblockContiguity(t: seq<Node>, j: nat, prefixes: seq<string>)
    requires ValidTree(t) && j < |t|
    requires IsDocComment(t, j, prefixes)
    requires t[j].previousNamedSibling.Some?
    requires !IsDocComment(t, t[j].previousNamedSibling.value, prefixes)
    ensures DocComments(t, Some(j), prefixes) == [Trim(t[j].text)]
  {
  }

  /** Every collected comment is a trimmed doc comment of the walk. */
  lemma {:induction false} DocCommentsQualify(t: seq<Node>, sibling: Option<nat>, prefixes: seq<string>)
    requires ValidTree(t)
    requires sibling.Some? ==> sibling.value < |t|
    ensures forall c :: c in DocComments(t, sibling, prefixes) ==> HasDocPrefix(c, prefixes)
    decreases if sibling.Some? then t[sibling.value].siblingIndex + 1 else 0
  {
    match sibling
    case None =>
    case Some(j) =>
      if IsDocComment(t, j, prefixes) {
        var rest := DocComments(t, t[j].previousNamedSibling, prefixes);
        var own := Trim(t[j].text);
        DocCommentsQualify(t, t[j].previousNamedSibling, prefixes);
        assert DocComments(t, sibling, prefixes) == rest + [own];
        forall c | c in rest + [own] ensures HasDocPrefix(c, prefixes) {
          if c != own { assert c in rest; }
        }
      }
  }

  // ---------------------------------------------------------------------------
  // Visibility

  /** The keyword of `v` occurs in the text as a whole word. */
  predicate Mentions(text: string, v: Visibility) {
    ContainsWord(text, VisibilityName(v))
  }

  /** `getVisibility`: the first of private, protected, public and export that occurs as
      a whole word anywhere in the text. */
  function VisibilityOf(text: string): (v: Option<Visibility>)
    ensures v.Some? ==> Mentions(text, v.value)
    ensures v.None? <==> !Mentions(text, Private) && !Mentions(text, Protected)
                         && !Mentions(text, Public) && !Mentions(text, Export)
    ensures Mentions(text, Private) ==> v == Some(Private)
    ensures v == Some(Protected) ==> !Mentions(text, Private)
    ensures v == Some(Public) ==> !Mentions(text, Private) && !Mentions(text, Protected)
    ensures v == Some(Export) ==> !Mentions(text, Private) && !Mentions(text, Protected)
                                  && !Mentions(text, Public)
  {
    if Mentions(text, Private) then Some(Private)
    else if Mentions(text, Protected) then Some(Protected)
    else if Mentions(text, Public) then Some(Public)
    else if Mentions(text, Export) then Some(Export)
    else None
  }

  // ---------------------------------------------------------------------------
  // One symbol per capture

  /** What every extracted symbol satisfies: a non-empty name, a 1-based line, a kind the
      classifier can produce, a signature (at most 200 characters, non-empty) and a
      visibility only on functions and methods, and a non-empty docblock when present. */
  predicate WellFormed(s: CodeSymbol) {
    && s.name != ""
    && s.line >= 1
    && s.kind != Module && s.kind != Section
    && (s.signature.Some? ==> IsCallable(s.kind) && s.signature.value != ""
                              && |s.signature.value| <= MaxSignatureLength)
    && (s.visibility.Some? ==> IsCallable(s.kind))
    && (s.docblock.Some? ==> s.docblock.value != "")
  }

  /** The declaration a capture belongs to: the parent of the captured name node. */
  function AnchorOf(t: seq<Node>, c: Capture): (d: Option<nat>)
    requires ValidTree(t) && c.node < |t|
    ensures d.Some? ==> d.value < |t| && t[d.value].depth < t[c.node].depth
  {
    t[c.node].parent
  }

  /** An optional string field filled JavaScript style (`value || undefined`). */
  function NonEmpty(s: string): (r: Option<string>)
    ensures r.Some? <==> s != ""
    ensures r.Some? ==> r.value == s
  {
    if s == "" then None else Some(s)
  }

  /** The symbol one capture contributes, or `None` when the captured node has no parent
      or its text is empty. Only functions and methods get a signature and a visibility. */
  function CaptureSymbol(t: seq<Node>, source: string, prefixes: seq<string>, c: Capture)
    : (r: Option<CodeSymbol>)
    requires ValidTree(t) && c.node < |t|
    ensures r.None? <==> AnchorOf(t, c).None? || t[c.node].text == ""
    ensures r.Some? ==> WellFormed(r.value) && r.value.children.NoChildren?
    ensures r.Some? ==> r.value.name == t[c.node].text && r.value.kind == KindOfCapture(c.name)
    ensures r.Some? ==> r.value.line == t[AnchorOf(t, c).value].startRow + 1
    ensures r.Some? && !IsCallable(r.value.kind) ==>
              r.value.signature.None? && r.value.visibility.None?
    ensures r.Some? && IsCallable(r.value.kind) ==>
              r.value.visibility == VisibilityOf(t[AnchorOf(t, c).value].text)
              && r.value.signature == NonEmpty(NodeSignature(source, t[AnchorOf(t, c).value].startRow))
    ensures r.Some? ==> r.value.docblock.Some? ==>
              DocComments(t, t[AnchorOf(t, c).value].previousNamedSibling, prefixes) != []
  {
    match t[c.node].parent
    case None => None
    case Some(d) =>
      var name := t[c.node].text;
      if name == "" then None
      else
        var kind := KindOfCapture(c.name);
        var signature := if IsCallable(kind) then NodeSignature(source, t[d].startRow) else "";
        var docblock := Docblock(t, d, prefixes);
        var visibility := if IsCallable(kind) then VisibilityOf(t[d].text) else None;
        Some(CodeSymbol(
          name, kind, NonEmpty(signature),
          if docblock.Some? then NonEmpty(docblock.value) else None,
          t[d].startRow + 1, NoChildren, visibility))
  }

  // ---------------------------------------------------------------------------
  // The symbol map

  /** The table invariants: ids of the arena, well-formed symbols without children. */
  ghost predicate TableOk(t: seq<Node>, m: OrderedMap<nat, CodeSymbol>) {
    && m.Valid()
    && (forall i :: 0 <= i < |m.keys| ==> m.keys[i] < |t|)
    && forall k :: k in m.entries ==>
         k < |t| && WellFormed(m.entries[k]) && m.entries[k].children.NoChildren?
  }

  /** The `set` call one capture makes on `symbolMap`, if any: its anchor id and symbol. */
  function Contribution(t: seq<Node>, source: string, prefixes: seq<string>, c: Capture)
    : (r: Option<(nat, CodeSymbol)>)
    requires ValidTree(t) && c.node < |t|
    ensures r.Some? <==> AnchorOf(t, c).Some? && t[c.node].text != ""
    ensures r.Some? ==> r.value.0 == AnchorOf(t, c).value && r.value.0 < |t|
                        && r.value.1 == CaptureSymbol(t, source, prefixes, c).value
  {
    match CaptureSymbol(t, source, prefixes, c)
    case None => None
    case Some(s) => Some((AnchorOf(t, c).value, s))
  }

  /** The `set` call of a capture with a parent and a name, field by field. */
  lemma ContributionBuilt(t: seq<Node>, source: string, prefixes: seq<string>, c: Capture)
    requires ValidTree(t) && c.node < |t| && t[c.node].parent.Some? && t[c.node].text != ""
    ensures var d := t[c.node].parent.value;
            var kind := KindOfCapture(c.name);
            var doc := Docblock(t, d, prefixes);
            Contribution(t, source, prefixes, c) ==
            Some((d, CodeSymbol(t[c.node].text, kind,
                                NonEmpty(if IsCallable(kind) then NodeSignature(source, t[d].startRow) else ""),
                                if doc.Some? then NonEmpty(doc.value) else None,
                                t[d].startRow + 1, NoChildren,
                                if IsCallable(kind) then VisibilityOf(t[d].text) else None)))
  {
    var d := t[c.node].parent.value;
    var kind := KindOfCapture(c.name);
    var doc := Docblock(t, d, prefixes);
    var r := CaptureSymbol(t, source, prefixes, c);
    assert r.Some?;
    var e := CodeSymbol(t[c.node].text, kind,
                        NonEmpty(if IsCallable(kind) then NodeSignature(source, t[d].startRow) else ""),
                        if doc.Some? then NonEmpty(doc.value) else None,
                        t[d].startRow + 1, NoChildren,
                        if IsCallable(kind) then VisibilityOf(t[d].text) else None);
    assert r.value == e;
    assert Contribution(t, source, prefixes, c) == Some((d, r.value));
  }

  function Contributions(t: seq<Node>, source: string, prefixes: seq<string>, caps: seq<Capture>)
    : (r: seq<Option<(nat, CodeSymbol)>>)
    requires ValidTree(t) && ValidCaptures(t, caps)
    ensures |r| == |caps|
    ensures forall j :: 0 <= j < |caps| ==> r[j] == Contribution(t, source, prefixes, caps[j])
  {
    seq(|caps|, j requires 0 <= j < |caps| => Contribution(t, source, prefixes, caps[j]))
  }

  /** `symbolMap` after the first loop has visited `caps`: each capture that yields a
      symbol sets it under its anchor id. */
  function SymbolTable(t: seq<Node>, source: string, prefixes: seq<string>, caps: seq<Capture>)
    : (m: OrderedMap<nat, CodeSymbol>)
    requires ValidTree(t) && ValidCaptures(t, caps)
    ensures TableOk(t, m)
  {
    var xs := Contributions(t, source, prefixes, caps);
    var m := SetAll<nat, CodeSymbol>(xs);
    KeysListed<nat, CodeSymbol>(m);
    assert forall k :: k in m.entries ==>
             k < |t| && WellFormed(m.entries[k]) && m.entries[k].children.NoChildren? by {
      forall k | k in m.entries
        ensures k < |t| && WellFormed(m.entries[k]) && m.entries[k].children.NoChildren?
      {
        SetAllValues<nat, CodeSymbol>(xs, k);
      }
    }
    m
  }

  /** Capture `j` yields a symbol keyed by `d`. */
  predicate Contributes(t: seq<Node>, caps: seq<Capture>, j: int, d: nat)
    requires ValidTree(t) && ValidCaptures(t, caps)
  {
    && 0 <= j < |caps|
    && AnchorOf(t, caps[j]) == Some(d)
    && t[caps[j].node].text != ""
  }

  /** The table holds a symbol under `d` exactly when some capture on `d` yields one. */
  lemma SymbolTableKeys(t: seq<Node>, source: string, prefixes: seq<string>,
                        caps: seq<Capture>, d: nat)
    requires ValidTree(t) && ValidCaptures(t, caps)
    ensures d in SymbolTable(t, source, prefixes, caps).entries <==>
              exists j :: Contributes(t, caps, j, d)
  {
    var xs := Contributions(t, source, prefixes, caps);
    SetAllKeys<nat, CodeSymbol>(xs, d);
    if exists j :: Contributes(t, caps, j, d) {
      var j :| Contributes(t, caps, j, d);
      assert SetsKey(xs, j, d);
    }
    if exists j :: SetsKey(xs, j, d) {
      var j :| SetsKey(xs, j, d);
      assert Contributes(t, caps, j, d);
    }
  }

  /** A later capture on the same anchor overwrites the symbol of an earlier one: the
      table holds the symbol of the last capture that contributes to `d`. */
  lemma LastCaptureWins(t: seq<Node>, source: string, prefixes: seq<string>,
                        caps: seq<Capture>, j: int, d: nat)
    requires ValidTree(t) && ValidCaptures(t, caps)
    requires Contributes(t, caps, j, d)
    requires forall i :: j < i < |caps| ==> !Contributes(t, caps, i, d)
    ensures d in SymbolTable(t, source, prefixes, caps).entries
    ensures SymbolTable(t, source, prefixes, caps).entries[d]
            == CaptureSymbol(t, source, prefixes, caps[j]).value
  {
    var xs := Contributions(t, source, prefixes, caps);
    forall i | j < i < |xs| ensures !SetsKey(xs, i, d) {
      assert !Contributes(t, caps, i, d);
    }
    SetAllLastWins<nat, CodeSymbol>(xs, j, d);
  }

  // ---------------------------------------------------------------------------
  // Hierarchy

  /** The node `from` and its ancestors, innermost first, up to the root. */
  function AncestorChain(t: seq<Node>, from: Option<nat>): (chain: seq<nat>)
    requires ValidTree(t) && (from.Some? ==> from.value < |t|)
    ensures chain == [] <==> from.None?
    ensures forall i :: 0 <= i < |chain| ==> chain[i] < |t|
    ensures chain != [] ==> chain[0] == from.value && t[chain[|chain| - 1]].parent.None?
    ensures forall i {:trigger t[chain[i]].parent} ::
              0 <= i < |chain| - 1 ==> t[chain[i]].parent == Some(chain[i + 1])
    decreases if from.Some? then t[from.value].depth + 1 else 0
  {
    match from
    case None => []
    case Some(p) => [p] + AncestorChain(t, t[p].parent)
  }

  /** The first node of the chain from `from` upward whose id is in `anchors`: the
      ancestor walk of the second loop. */
  function NearestAnchor(t: seq<Node>, anchors: set<nat>, from: Option<nat>): (r: Option<nat>)
    requires ValidTree(t) && (from.Some? ==> from.value < |t|)
    ensures r.Some? ==> from.Some? && r.value < |t| && r.value in anchors
                        && t[r.value].depth <= t[from.value].depth
    decreases if from.Some? then t[from.value].depth + 1 else 0
  {
    match from
    case None => None
    case Some(p) => if p in anchors then Some(p) else NearestAnchor(t, anchors, t[p].parent)
  }

  /** `NearestAnchor` finds the first anchor of the ancestor chain, and finds nothing
      exactly when the chain holds no anchor. */
  lemma {:induction false} NearestAnchorIsFirst(t: seq<Node>, anchors: set<nat>, from: Option<nat>)
    requires ValidTree(t) && (from.Some? ==> from.value < |t|)
    ensures NearestAnchor(t, anchors, from).None? <==>
              forall i :: 0 <= i < |AncestorChain(t, from)| ==> AncestorChain(t, from)[i] !in anchors
    ensures NearestAnchor(t, anchors, from).Some? ==>
              exists i :: 0 <= i < |AncestorChain(t, from)|
                          && AncestorChain(t, from)[i] == NearestAnchor(t, anchors, from).value
                          && forall l :: 0 <= l < i ==> AncestorChain(t, from)[l] !in anchors
    decreases if from.Some? then t[from.value].depth + 1 else 0
  {
    if from.Some? {
      var p := from.value;
      var chain := AncestorChain(t, from);
      var rest := AncestorChain(t, t[p].parent);
      assert chain == [p] + rest;
      if p !in anchors {
        assert NearestAnchor(t, anchors, from) == NearestAnchor(t, anchors, t[p].parent);
        NearestAnchorIsFirst(t, anchors, t[p].parent);
        if NearestAnchor(t, anchors, from).Some? {
          var i :| 0 <= i < |rest| && rest[i] == NearestAnchor(t, anchors, from).value
                   && forall l :: 0 <= l < i ==> rest[l] !in anchors;
          assert chain[i + 1] == rest[i];
          forall l | 0 <= l < i + 1 ensures chain[l] !in anchors {
            if l > 0 { assert chain[l] == rest[l - 1]; }
          }
        } else {
          forall i | 0 <= i < |chain| ensures chain[i] !in anchors {
            if i > 0 { assert chain[i] == rest[i - 1]; }
          }
        }
      } else {
        assert chain[0] == p;
      }
    }
  }

  /** The keys of a table are ids of the arena. */
  lemma KeysInArena(t: seq<Node>, m: OrderedMap<nat, CodeSymbol>)
    requires TableOk(t, m)
    ensures forall i :: 0 <= i < |m.keys| ==> m.keys[i] in m.entries && m.keys[i] < |t|
  {
    KeysListed<nat, CodeSymbol>(m);
  }

  /** The anchor a symbol nests under: the nearest strict ancestor of its declaration
      that is a key of the table. */
  function ParentOf(t: seq<Node>, m: OrderedMap<nat, CodeSymbol>, d: nat): (p: Option<nat>)
    requires ValidTree(t) && d < |t|
    ensures p.Some? ==> p.value in m.entries && p.value < |t| && t[p.value].depth < t[d].depth
  {
    NearestAnchor(t, m.entries.Keys, t[d].parent)
  }

  /** The keys of `ks` that have no parent anchor, in order: the root symbols. */
  function RootIds(t: seq<Node>, m: OrderedMap<nat, CodeSymbol>, ks: seq<nat>): (r: seq<nat>)
    requires ValidTree(t) && forall i :: 0 <= i < |ks| ==> ks[i] < |t|
  {
    if ks == [] then []
    else
      var r := RootIds(t, m, ks[..|ks| - 1]);
      var k := ks[|ks| - 1];
      if ParentOf(t, m, k).None? then r + [k] else r
  }

  /** The roots are the keys without a parent anchor. */
  lemma {:induction false} RootIdsMembers(t: seq<Node>, m: OrderedMap<nat, CodeSymbol>, ks: seq<nat>)
    requires ValidTree(t) && forall i :: 0 <= i < |ks| ==> ks[i] < |t|
    ensures forall x :: x in RootIds(t, m, ks) <==> x in ks && ParentOf(t, m, x).None?
  {
    if ks != [] {
      var init := ks[..|ks| - 1];
      RootIdsMembers(t, m, init);
      assert ks == init + [ks[|ks| - 1]];
    }
  }

  lemma RootIdsSnoc(t: seq<Node>, m: OrderedMap<nat, CodeSymbol>, ks: seq<nat>, k: nat)
    requires ValidTree(t) && (forall i :: 0 <= i < |ks| ==> ks[i] < |t|) && k < |t|
    ensures RootIds(t, m, ks + [k]) == RootIds(t, m, ks) + (if ParentOf(t, m, k).None? then [k] else [])
  {
    assert (ks + [k])[..|ks|] == ks;
  }

  /** The keys of `ks` whose parent anchor is `p`, in order: the children of `p`. */
  function ChildIds(t: seq<Node>, m: OrderedMap<nat, CodeSymbol>, ks: seq<nat>, p: nat): (r: seq<nat>)
    requires ValidTree(t) && forall i :: 0 <= i < |ks| ==> ks[i] < |t|
  {
    if ks == [] then []
    else
      var r := ChildIds(t, m, ks[..|ks| - 1], p);
      var k := ks[|ks| - 1];
      if ParentOf(t, m, k) == Some(p) then r + [k] else r
  }

  /** The children of `p` are the keys whose parent anchor is `p`. */
  lemma {:induction false} ChildIdsMembers(t: seq<Node>, m: OrderedMap<nat, CodeSymbol>, ks: seq<nat>, p: nat)
    requires ValidTree(t) && forall i :: 0 <= i < |ks| ==> ks[i] < |t|
    ensures forall x :: x in ChildIds(t, m, ks, p) <==> x in ks && ParentOf(t, m, x) == Some(p)
  {
    if ks != [] {
      var init := ks[..|ks| - 1];
      ChildIdsMembers(t, m, init, p);
      assert ks == init + [ks[|ks| - 1]];
    }
  }

  lemma ChildIdsSnoc(t: seq<Node>, m: OrderedMap<nat, CodeSymbol>, ks: seq<nat>, k: nat, p: nat)
    requires ValidTree(t) && (forall i :: 0 <= i < |ks| ==> ks[i] < |t|) && k < |t|
    ensures ChildIds(t, m, ks + [k], p)
            == ChildIds(t, m, ks, p) + (if ParentOf(t, m, k) == Some(p) then [k] else [])
  {
    assert (ks + [k])[..|ks|] == ks;
  }

  /** The children lists of the table: each key that some symbol nests under, with the
      keys nesting under it in map order. */
  function ChildMap(t: seq<Node>, m: OrderedMap<nat, CodeSymbol>, ks: seq<nat>): (kids: map<nat, seq<nat>>)
    requires ValidTree(t) && forall i :: 0 <= i < |ks| ==> ks[i] < |t|
    ensures forall p :: p in kids <==> p in m.entries && ChildIds(t, m, ks, p) != []
    ensures forall p :: p in kids ==> kids[p] == ChildIds(t, m, ks, p)
  {
    map p | p in m.entries.Keys && ChildIds(t, m, ks, p) != [] :: ChildIds(t, m, ks, p)
  }

  /** Every listed child is a key lying deeper than its parent. */
  ghost predicate KidsOk(t: seq<Node>, m: OrderedMap<nat, CodeSymbol>, kids: map<nat, seq<nat>>)
    requires ValidTree(t) && TableOk(t, m)
  {
    forall p :: p in kids ==>
      p in m.entries
      && forall i :: 0 <= i < |kids[p]| ==> kids[p][i] in m.entries && t[kids[p][i]].depth > t[p].depth
  }

  lemma ChildMapOk(t: seq<Node>, m: OrderedMap<nat, CodeSymbol>)
    requires ValidTree(t) && TableOk(t, m)
    ensures forall i :: 0 <= i < |m.keys| ==> m.keys[i] in m.entries && m.keys[i] < |t|
    ensures KidsOk(t, m, ChildMap(t, m, m.keys))
  {
    KeysInArena(t, m);
    var kids := ChildMap(t, m, m.keys);
    forall p, i | p in kids && 0 <= i < |kids[p]|
      ensures kids[p][i] in m.entries && t[kids[p][i]].depth > t[p].depth
    {
      ChildIdsMembers(t, m, m.keys, p);
      assert kids[p][i] in ChildIds(t, m, m.keys, p);
    }
  }

  /** The symbol of key `k` with the symbols listed under it attached, in list order; a
      symbol nothing is listed under keeps `children` absent, as the organize loop only
      creates the array on the first push. */
  function BuildSymbol(t: seq<Node>, m: OrderedMap<nat, CodeSymbol>, kids: map<nat, seq<nat>>, k: nat)
    : (s: CodeSymbol)
    requires ValidTree(t) && TableOk(t, m) && KidsOk(t, m, kids) && k in m.entries
    decreases MaxDepth(t) - t[k].depth
  {
    if k !in kids then m.entries[k]
    else
      var ids := kids[k];
      m.entries[k].(children := Children(
        seq(|ids|, i requires 0 <= i < |ids| => BuildSymbol(t, m, kids, ids[i]))))
  }

  /** The symbols of the keys `ids`, each with its nested symbols attached. */
  function BuildAll(t: seq<Node>, m: OrderedMap<nat, CodeSymbol>, kids: map<nat, seq<nat>>,
                    ids: seq<nat>): (forest: seq<CodeSymbol>)
    requires ValidTree(t) && TableOk(t, m) && KidsOk(t, m, kids)
    requires forall i :: 0 <= i < |ids| ==> ids[i] in m.entries
    ensures |forest| == |ids|
  {
    seq(|ids|, i requires 0 <= i < |ids| => BuildSymbol(t, m, kids, ids[i]))
  }

  /** The forest the organize loop builds: the root symbols in map order, each symbol
      holding the symbols that nest under it. */
  function BuildForest(t: seq<Node>, m: OrderedMap<nat, CodeSymbol>): (forest: seq<CodeSymbol>)
    requires ValidTree(t) && TableOk(t, m)
  {
    ChildMapOk(t, m);
    var roots := RootIds(t, m, m.keys);
    assert forall i :: 0 <= i < |roots| ==> roots[i] in m.entries by {
      RootIdsMembers(t, m, m.keys);
      forall i | 0 <= i < |roots| ensures roots[i] in m.entries {
        assert roots[i] in roots;
      }
    }
    BuildAll(t, m, ChildMap(t, m, m.keys), roots)
  }

  // ---------------------------------------------------------------------------
  // Sorting by line

  /** Non-decreasing by line. */
  predicate SortedByLine(xs: seq<CodeSymbol>) {
    forall i, j :: 0 <= i < j < |xs| ==> xs[i].line <= xs[j].line
  }

  /** Puts `x` in front of the first symbol whose line is not below its own. */
  function InsertByLine(x: CodeSymbol, xs: seq<CodeSymbol>): (r: seq<CodeSymbol>)
    ensures multiset(r) == multiset(xs) + multiset{x}
    ensures |r| == |xs| + 1
  {
    if xs == [] || x.line <= xs[0].line then [x] + xs
    else
      assert xs == [xs[0]] + xs[1..];
      [xs[0]] + InsertByLine(x, xs[1..])
  }

  /** `symbols.sort((a, b) => a.line - b.line)`: a stable sort by line. */
  function SortByLine(xs: seq<CodeSymbol>): (r: seq<CodeSymbol>)
    ensures multiset(r) == multiset(xs)
    ensures |r| == |xs|
  {
    if xs == [] then []
    else
      assert xs == [xs[0]] + xs[1..];
      InsertByLine(xs[0], SortByLine(xs[1..]))
  }

  /** Every symbol of `xs` starts at line `b` or later. */
  predicate LinesFrom(xs: seq<CodeSymbol>, b: int) {
    forall i :: 0 <= i < |xs| ==> b <= xs[i].line
  }

  lemma {:induction false} InsertByLineFrom(x: CodeSymbol, xs: seq<CodeSymbol>, b: int)
    requires LinesFrom(xs, b) && b <= x.line
    ensures LinesFrom(InsertByLine(x, xs), b)
  {
    if xs != [] && x.line > xs[0].line {
      InsertByLineFrom(x, xs[1..], b);
      var r := InsertByLine(x, xs);
      var rest := InsertByLine(x, xs[1..]);
      assert r == [xs[0]] + rest;
      forall i | 0 <= i < |r| ensures b <= r[i].line {
        if i > 0 { assert r[i] == rest[i - 1]; }
      }
    }
  }

  lemma {:induction false} InsertByLineSorted(x: CodeSymbol, xs: seq<CodeSymbol>)
    requires SortedByLine(xs)
    ensures SortedByLine(InsertByLine(x, xs))
  {
    var r := InsertByLine(x, xs);
    if xs == [] || x.line <= xs[0].line {
      assert r == [x] + xs;
      forall i, j | 0 <= i < j < |r| ensures r[i].line <= r[j].line {
        if i == 0 { assert r[j] == xs[j - 1] && xs[0].line <= xs[j - 1].line; }
        else { assert r[i] == xs[i - 1] && r[j] == xs[j - 1]; }
      }
    } else {
      var a := xs[0];
      var rest := InsertByLine(x, xs[1..]);
      assert SortedByLine(xs[1..]) && LinesFrom(xs[1..], a.line) by {
        forall i | 0 <= i < |xs[1..]| ensures a.line <= xs[1..][i].line { assert xs[1..][i] == xs[i + 1]; }
        forall i, j | 0 <= i < j < |xs[1..]| ensures xs[1..][i].line <= xs[1..][j].line {
          assert xs[1..][i] == xs[i + 1] && xs[1..][j] == xs[j + 1];
        }
      }
      InsertByLineSorted(x, xs[1..]);
      InsertByLineFrom(x, xs[1..], a.line);
      assert r == [a] + rest;
      forall i, j | 0 <= i < j < |r| ensures r[i].line <= r[j].line {
        if i == 0 { assert r[j] == rest[j - 1]; } else { assert r[i] == rest[i - 1] && r[j] == rest[j - 1]; }
      }
    }
  }

  /** The sorted list is ordered by line. */
  lemma {:induction false} SortByLineSorted(xs: seq<CodeSymbol>)
    ensures SortedByLine(SortByLine(xs))
  {
    if xs != [] {
      SortByLineSorted(xs[1..]);
      InsertByLineSorted(xs[0], SortByLine(xs[1..]));
    }
  }

  /** The symbols of `xs` on line `l`, in order. */
  function OnLine(xs: seq<CodeSymbol>, l: int): seq<CodeSymbol> {
    if xs == [] then []
    else (if xs[0].line == l then [xs[0]] else []) + OnLine(xs[1..], l)
  }

  /** `OnLine` keeps exactly the symbols of `xs` on line `l`. */
  lemma {:induction false} OnLineMembers(xs: seq<CodeSymbol>, l: int)
    ensures forall y :: y in OnLine(xs, l) <==> y in xs && y.line == l
  {
    if xs != [] {
      OnLineMembers(xs[1..], l);
      assert xs == [xs[0]] + xs[1..];
    }
  }

  lemma OnLineCons(a: CodeSymbol, xs: seq<CodeSymbol>, l: int)
    ensures OnLine([a] + xs, l) == (if a.line == l then [a] else []) + OnLine(xs, l)
  {
    assert ([a] + xs)[0] == a;
    assert ([a] + xs)[1..] == xs;
  }

  lemma {:induction false} InsertByLineStable(x: CodeSymbol, xs: seq<CodeSymbol>, l: int)
    ensures OnLine(InsertByLine(x, xs), l)
            == (if x.line == l then [x] else []) + OnLine(xs, l)
  {
    if xs == [] || x.line <= xs[0].line {
      assert InsertByLine(x, xs) == [x] + xs;
      OnLineCons(x, xs, l);
    } else {
      var a := xs[0];
      var rest := InsertByLine(x, xs[1..]);
      InsertByLineStable(x, xs[1..], l);
      assert InsertByLine(x, xs) == [a] + rest;
      OnLineCons(a, rest, l);
      assert xs == [a] + xs[1..];
      OnLineCons(a, xs[1..], l);
      SwapAroundEmpty<CodeSymbol>(if a.line == l then [a] else [], if x.line == l then [x] else [],
                                  OnLine(xs[1..], l));
    }
  }


  /** The sort is stable: the symbols sharing a line keep their relative order. */
  lemma {:induction false} SortByLineStable(xs: seq<CodeSymbol>, l: int)
    ensures OnLine(SortByLine(xs), l) == OnLine(xs, l)
  {
    if xs != [] {
      SortByLineStable(xs[1..], l);
      InsertByLineStable(xs[0], SortByLine(xs[1..]), l);
    }
  }

  /** `sortSymbolsByLine` on one symbol: its children list, when present, sorted at every
      level. */
  function SortSymbol(s: CodeSymbol): (r: CodeSymbol)
    ensures r.(children := s.children) == s
    ensures r.children.NoChildren? <==> s.children.NoChildren?
    decreases s, 0
  {
    match s.children
    case NoChildren => s
    case Children(items) => s.(children := Children(SortSymbolsByLine(items)))
  }

  /** `sortSymbolsByLine`: the list sorted by line, then every children list sorted the
      same way. */
  function SortSymbolsByLine(symbols: seq<CodeSymbol>): (r: seq<CodeSymbol>)
    ensures |r| == |symbols|
    decreases symbols, 1
  {
    var sorted := SortByLine(symbols);
    seq(|sorted|, i requires 0 <= i < |sorted| =>
      assert sorted[i] in multiset(symbols);
      SortSymbol(sorted[i]))
  }

  // ---------------------------------------------------------------------------
  // extractSymbols

  /** The root symbols `extractSymbols` returns. */
  function Extract(t: seq<Node>, source: string, prefixes: seq<string>, caps: seq<Capture>)
    : seq<CodeSymbol>
    requires ValidTree(t) && ValidCaptures(t, caps)
  {
    SortSymbolsByLine(BuildForest(t, SymbolTable(t, source, prefixes, caps)))
  }

  /** The first loop of `extractSymbols`: one symbol per capture, keyed by anchor id. */
  method CollectSymbols(t: seq<Node>, source: string, prefixes: seq<string>, caps: seq<Capture>)
    returns (symbolMap: OrderedMap<nat, CodeSymbol>)
    requires ValidTree(t) && ValidCaptures(t, caps)
    ensures symbolMap == SymbolTable(t, source, prefixes, caps)
  {
    ghost var xs := Contributions(t, source, prefixes, caps);
    symbolMap := Empty();
    for i := 0 to |caps|
      invariant symbolMap == SetAll<nat, CodeSymbol>(xs[..i])
    {
      SetAllSnoc<nat, CodeSymbol>(xs, i);
      var nameNode := caps[i].node;
      var declNode := t[nameNode].parent;
      if declNode.None? {
        continue;
      }
      var d := declNode.value;
      var name := t[nameNode].text;
      if name == "" {
        continue;
      }
      var kind := KindOfCapture(caps[i].name);
      var signature := "";
      if kind == Function || kind == Method {
        signature := NodeSignature(source, t[d].startRow);
      }
      var docblock := ExtractDocblock(t, d, prefixes);
      var visibility: Option<Visibility> := None;
      if kind == Method || kind == Function {
        visibility := VisibilityOf(t[d].text);
      }
      var symbol := CodeSymbol(
        name, kind, NonEmpty(signature),
        if docblock.Some? then NonEmpty(docblock.value) else None,
        t[d].startRow + 1, NoChildren, visibility);
      assert signature == if IsCallable(kind) then NodeSignature(source, t[d].startRow) else "";
      assert visibility == if IsCallable(kind) then VisibilityOf(t[d].text) else None;
      assert xs[i] == Contribution(t, source, prefixes, caps[i]);
      ContributionBuilt(t, source, prefixes, caps[i]);
      ghost var e := Contribution(t, source, prefixes, caps[i]).value;
      assert e.0 == d;
      assert e.1.name == symbol.name;
      assert e.1.kind == symbol.kind;
      assert e.1.signature == symbol.signature;
      assert e.1.docblock == symbol.docblock;
      assert e.1.line == symbol.line;
      assert e.1.children == symbol.children;
      assert e.1.visibility == symbol.visibility;
      assert xs[i] == Some((d, symbol));
      symbolMap := symbolMap.Set(d, symbol);
    }
    assert xs[..|caps|] == xs;
  }

  /** The second loop: for each capture's declaration, the nearest strict ancestor that
      is a key of the symbol map, found by walking up the parents. */
  method FindParents(t: seq<Node>, symbolMap: OrderedMap<nat, CodeSymbol>, caps: seq<Capture>)
    returns (nodeParents: map<nat, nat>)
    requires ValidTree(t) && ValidCaptures(t, caps)
    ensures forall d :: d in nodeParents ==> d < |t| && ParentOf(t, symbolMap, d) == Some(nodeParents[d])
    ensures forall j :: 0 <= j < |caps| && AnchorOf(t, caps[j]).Some?
                        && ParentOf(t, symbolMap, AnchorOf(t, caps[j]).value).Some? ==>
              AnchorOf(t, caps[j]).value in nodeParents
  {
    nodeParents := map[];
    for i := 0 to |caps|
      invariant forall d :: d in nodeParents ==>
                  d < |t| && ParentOf(t, symbolMap, d) == Some(nodeParents[d])
      invariant forall j :: 0 <= j < i && AnchorOf(t, caps[j]).Some?
                            && ParentOf(t, symbolMap, AnchorOf(t, caps[j]).value).Some? ==>
                  AnchorOf(t, caps[j]).value in nodeParents
    {
      var declNode := t[caps[i].node].parent;
      if declNode.None? {
        continue;
      }
      var d := declNode.value;
      var parent: Option<nat> := t[d].parent;
      ghost var before := nodeParents;
      while parent.Some?
        invariant parent.Some? ==> parent.value < |t|
        invariant NearestAnchor(t, symbolMap.entries.Keys, parent) == ParentOf(t, symbolMap, d)
        invariant nodeParents == before
        decreases if parent.Some? then t[parent.value].depth + 1 else 0
      {
        if parent.value in symbolMap.entries {
          nodeParents := nodeParents[d := parent.value];
          break;
        }
        parent := t[parent.value].parent;
      }
    }
  }

  /** `children` holds the children lists built from the keys `ks`. */
  ghost predicate ChildrenSoFar(t: seq<Node>, m: OrderedMap<nat, CodeSymbol>, ks: seq<nat>,
                                children: map<nat, seq<nat>>)
    requires ValidTree(t) && forall i :: 0 <= i < |ks| ==> ks[i] < |t|
  {
    && (forall p :: p in children <==> p in m.entries && ChildIds(t, m, ks, p) != [])
    && (forall p :: p in children ==> children[p] == ChildIds(t, m, ks, p))
  }

  /** One step of the organize loop: key `k` joins the children of its parent anchor. */
  lemma ChildrenStep(t: seq<Node>, m: OrderedMap<nat, CodeSymbol>, ks: seq<nat>, k: nat,
                     children: map<nat, seq<nat>>)
    requires ValidTree(t) && (forall i :: 0 <= i < |ks| ==> ks[i] < |t|) && k < |t|
    requires ChildrenSoFar(t, m, ks, children)
    ensures ParentOf(t, m, k).None? ==> ChildrenSoFar(t, m, ks + [k], children)
    ensures ParentOf(t, m, k).Some? ==>
              var p := ParentOf(t, m, k).value;
              ChildrenSoFar(t, m, ks + [k],
                children[p := (if p in children then children[p] else []) + [k]])
  {
    forall p: nat {
      ChildIdsSnoc(t, m, ks, k, p);
    }
  }

  /** The loop's children lists are those of `ChildMap`. */
  lemma ChildrenSoFarIsChildMap(t: seq<Node>, m: OrderedMap<nat, CodeSymbol>, ks: seq<nat>,
                                children: map<nat, seq<nat>>)
    requires ValidTree(t) && forall i :: 0 <= i < |ks| ==> ks[i] < |t|
    requires ChildrenSoFar(t, m, ks, children)
    ensures children == ChildMap(t, m, ks)
  {
  }

  /** The third loop: each symbol, in map order, goes to the children of its parent
      anchor or, without one, to the roots. Children are recorded by id; `BuildAll`
      then materialises the shared objects. */
  method Organize(t: seq<Node>, symbolMap: OrderedMap<nat, CodeSymbol>, nodeParents: map<nat, nat>)
    returns (rootIds: seq<nat>, children: map<nat, seq<nat>>)
    requires ValidTree(t) && forall i :: 0 <= i < |symbolMap.keys| ==> symbolMap.keys[i] < |t|
    requires forall i :: 0 <= i < |symbolMap.keys| ==>
               (symbolMap.keys[i] in nodeParents <==> ParentOf(t, symbolMap, symbolMap.keys[i]).Some?)
    requires forall d :: d in nodeParents ==> d < |t| && ParentOf(t, symbolMap, d) == Some(nodeParents[d])
    ensures rootIds == RootIds(t, symbolMap, symbolMap.keys)
    ensures ChildrenSoFar(t, symbolMap, symbolMap.keys, children)
  {
    var ks := symbolMap.keys;
    rootIds := [];
    children := map[];
    for i := 0 to |ks|
      invariant rootIds == RootIds(t, symbolMap, ks[..i])
      invariant ChildrenSoFar(t, symbolMap, ks[..i], children)
    {
      var nodeId := ks[i];
      assert ks[..i + 1] == ks[..i] + [nodeId];
      RootIdsSnoc(t, symbolMap, ks[..i], nodeId);
      ChildrenStep(t, symbolMap, ks[..i], nodeId, children);
      if nodeId in nodeParents {
        var parentId := nodeParents[nodeId];
        if parentId in symbolMap.entries {
          var list := if parentId in children then children[parentId] else [];
          children := children[parentId := list + [nodeId]];
        }
      } else {
        rootIds := rootIds + [nodeId];
      }
    }
    assert ks[..|ks|] == ks;
  }

  /** `extractSymbols`: the three loops, then the sort. */
  method ExtractSymbols(t: seq<Node>, source: string, prefixes: seq<string>, caps: seq<Capture>)
    returns (roots: seq<CodeSymbol>)
    requires ValidTree(t) && ValidCaptures(t, caps)
    ensures roots == Extract(t, source, prefixes, caps)
  {
    var symbolMap := CollectSymbols(t, source, prefixes, caps);
    var nodeParents := FindParents(t, symbolMap, caps);
    KeysInArena(t, symbolMap);
    forall i | 0 <= i < |symbolMap.keys|
      ensures symbolMap.keys[i] in nodeParents <==> ParentOf(t, symbolMap, symbolMap.keys[i]).Some?
    {
      var k := symbolMap.keys[i];
      SymbolTableKeys(t, source, prefixes, caps, k);
      var j :| Contributes(t, caps, j, k);
    }
    var rootIds, children := Organize(t, symbolMap, nodeParents);
    ChildrenSoFarIsChildMap(t, symbolMap, symbolMap.keys, children);
    ChildMapOk(t, symbolMap);
    assert forall i :: 0 <= i < |rootIds| ==> rootIds[i] in symbolMap.entries by {
      RootIdsMembers(t, symbolMap, symbolMap.keys);
      forall i | 0 <= i < |rootIds| ensures rootIds[i] in symbolMap.entries {
        assert rootIds[i] in rootIds;
      }
    }
    roots := SortSymbolsByLine(BuildAll(t, symbolMap, children, rootIds));
  }

  // ---------------------------------------------------------------------------
  // Properties of the output

  /** An output symbol: well formed, and a `children` array only when something was
      pushed into it. */
  predicate Shaped(s: CodeSymbol) {
    WellFormed(s) && (s.children.Children? ==> s.children.items != [])
  }

  /** Every level of the forest is ordered by line. */
  predicate LevelsSorted(forest: seq<CodeSymbol>) {
    SortedByLine(forest) && forall i :: 0 <= i < |forest| ==> SymbolLevelsSorted(forest[i])
  }

  predicate SymbolLevelsSorted(s: CodeSymbol) {
    match s.children
    case NoChildren => true
    case Children(items) => LevelsSorted(items)
  }

  lemma {:induction false} BuildSymbolShaped(t: seq<Node>, m: OrderedMap<nat, CodeSymbol>,
                                             kids: map<nat, seq<nat>>, k: nat)
    requires ValidTree(t) && TableOk(t, m) && KidsOk(t, m, kids) && k in m.entries
    requires forall p :: p in kids ==> kids[p] != []
    ensures Holds(BuildSymbol(t, m, kids, k), Shaped)
    decreases MaxDepth(t) - t[k].depth
  {
    var s := BuildSymbol(t, m, kids, k);
    if k in kids {
      var ids := kids[k];
      forall c | c in Kids(s) ensures Holds(c, Shaped) {
        var i :| 0 <= i < |ids| && c == BuildSymbol(t, m, kids, ids[i]);
        BuildSymbolShaped(t, m, kids, ids[i]);
      }
    }
  }

  /** Sorting keeps every symbol's own fields and the length of each list. */
  lemma {:induction false} SortSymbolShaped(s: CodeSymbol)
    requires Holds(s, Shaped)
    ensures Holds(SortSymbol(s), Shaped)
    decreases s, 0
  {
    match s.children
    case NoChildren =>
    case Children(items) =>
      assert AllSymbols(items, Shaped) by {
        forall i | 0 <= i < |items| ensures Holds(items[i], Shaped) {
          assert items[i] in Kids(s);
        }
      }
      SortSymbolsByLineShaped(items);
      var r := SortSymbolsByLine(items);
      forall c | c in Kids(SortSymbol(s)) ensures Holds(c, Shaped) {
        var i :| 0 <= i < |r| && r[i] == c;
      }
  }

  lemma {:induction false} SortSymbolsByLineShaped(symbols: seq<CodeSymbol>)
    requires AllSymbols(symbols, Shaped)
    ensures AllSymbols(SortSymbolsByLine(symbols), Shaped)
    decreases symbols, 1
  {
    var sorted := SortByLine(symbols);
    forall i | 0 <= i < |sorted| ensures Holds(SortSymbolsByLine(symbols)[i], Shaped) {
      assert sorted[i] in multiset(symbols);
      var j :| 0 <= j < |symbols| && symbols[j] == sorted[i];
      SortSymbolShaped(sorted[i]);
    }
  }

  lemma {:induction false} SortSymbolsByLineSorted(symbols: seq<CodeSymbol>)
    ensures LevelsSorted(SortSymbolsByLine(symbols))
    decreases symbols, 1
  {
    var sorted := SortByLine(symbols);
    var r := SortSymbolsByLine(symbols);
    SortByLineSorted(symbols);
    forall i | 0 <= i < |r| ensures r[i].line == sorted[i].line && SymbolLevelsSorted(r[i]) {
      assert sorted[i] in multiset(symbols);
      match sorted[i].children
      case NoChildren =>
      case Children(items) =>
        SortSymbolsByLineSorted(items);
        assert r[i] == SortSymbol(sorted[i]);
        assert r[i].children == Children(SortSymbolsByLine(items));
    }
  }

  /** What `extractSymbols` returns: no symbol has an empty name, kinds, signatures,
      visibilities and docblocks obey the per-capture rules at every depth, a `children`
      array is never empty, and the roots and every children list are ordered by line. */
  lemma ExtractShape(t: seq<Node>, source: string, prefixes: seq<string>, caps: seq<Capture>)
    requires ValidTree(t) && ValidCaptures(t, caps)
    ensures AllSymbols(Extract(t, source, prefixes, caps), Shaped)
    ensures LevelsSorted(Extract(t, source, prefixes, caps))
  {
    var m := SymbolTable(t, source, prefixes, caps);
    ChildMapOk(t, m);
    var kids := ChildMap(t, m, m.keys);
    var roots := RootIds(t, m, m.keys);
    RootIdsMembers(t, m, m.keys);
    var forest := BuildForest(t, m);
    forall i | 0 <= i < |forest| ensures Holds(forest[i], Shaped) {
      assert roots[i] in roots;
      BuildSymbolShaped(t, m, kids, roots[i]);
    }
    SortSymbolsByLineShaped(forest);
    SortSymbolsByLineSorted(forest);
  }
}
