/**
 * The Markdown outline (queries/markdown.ts): a line-by-line pass that turns `# ` headings
 * into root sections and nests each `## ` heading under the most recent one.
 */
module Markdown {
  import opened Wrappers
  import opened Strings
  import opened Types

  /** A recognised heading of the document, with its 1-based line. */
  datatype Heading = H1(name: string, line: nat) | H2(name: string, line: nat)

  /** The heading line `line` (1-based) holds, if any. A first-level heading is a
      trimmed line starting with `# ` and not with `##`, a second-level one starts with
      `## `; the text after the marker, trimmed, must not be empty. */
  function Classify(text: string, line: nat): (h: Option<Heading>)
    ensures h.Some? ==> h.value.line == line && h.value.name != ""
    ensures h.Some? && h.value.H1? ==> StartsWith(Trim(text), "# ")
    ensures h.Some? && h.value.H2? ==> StartsWith(Trim(text), "## ")
  {
    var trimmed := Trim(text);
    if StartsWith(trimmed, "# ") && !StartsWith(trimmed, "##") then
      var name := Trim(trimmed[2..]);
      if name != "" then Some(H1(name, line)) else None
    else if StartsWith(trimmed, "## ") then
      var name := Trim(trimmed[3..]);
      if name != "" then Some(H2(name, line)) else None
    else None
  }

  /** A string holding a non-blank character does not trim to the empty string. */
  lemma NonBlankTrim(u: string, j: nat)
    requires j < |u| && !IsSpace(u[j])
    ensures Trim(u) != ""
  {
    TrimBlanks(u);
    var n := LeadingBlanks(u);
    assert n <= j;
  }

  /** A trimmed line that starts with a marker ending in a blank goes on past the
      marker, so the name after it, trimmed, is never empty: the `if (name)` guards of
      both heading branches always pass. */
  lemma MarkerNameNonEmpty(text: string, marker: string)
    requires |marker| >= 1 && IsSpace(marker[|marker| - 1]) && StartsWith(Trim(text), marker)
    ensures |marker| < |Trim(text)| && Trim(Trim(text)[|marker|..]) != ""
  {
    var trimmed := Trim(text);
    assert trimmed[..|marker|][|marker| - 1] == trimmed[|marker| - 1];
    assert IsSpace(trimmed[|marker| - 1]);
    assert !IsSpace(trimmed[|trimmed| - 1]);
    var u := trimmed[|marker|..];
    assert u[|u| - 1] == trimmed[|trimmed| - 1];
    NonBlankTrim(u, |u| - 1);
  }

  /** Third-level and deeper headings produce nothing. */
  lemma DeepHeadingIgnored(text: string, line: nat)
    requires StartsWith(Trim(text), "###")
    ensures Classify(text, line).None?
  {
    var trimmed := Trim(text);
    assert trimmed[..2] == "##";
    assert trimmed[2] == '#';
    assert !StartsWith(trimmed, "## ");
  }

  /** The headings of `lines`, in order, each numbered by its position plus one. */
  function Headings(lines: seq<string>): (hs: seq<Heading>)
    ensures forall i :: 0 <= i < |hs| ==> 1 <= hs[i].line <= |lines|
    ensures forall i, j :: 0 <= i < j < |hs| ==> hs[i].line < hs[j].line
  {
    if lines == [] then []
    else
      var n := |lines|;
      var hs := Headings(lines[..n - 1]);
      match Classify(lines[n - 1], n)
      case None => hs
      case Some(h) => hs + [h]
  }

  /** A heading as a section symbol without children. */
  function Leaf(h: Heading): CodeSymbol {
    CodeSymbol(h.name, Section, None, None, h.line, NoChildren, None)
  }

  /** The number of second-level headings at the front of `hs`. */
  function LeadingH2s(hs: seq<Heading>): (k: nat)
    ensures k <= |hs|
  {
    if hs == [] || hs[0].H1? then 0 else 1 + LeadingH2s(hs[1..])
  }

  /** The run counted by `LeadingH2s` is second-level headings only, and what ends it
      is a first-level heading. */
  lemma {:induction false} LeadingH2sRun(hs: seq<Heading>)
    ensures forall i :: 0 <= i < LeadingH2s(hs) ==> hs[i].H2?
    ensures LeadingH2s(hs) < |hs| ==> hs[LeadingH2s(hs)].H1?
  {
    if hs != [] && hs[0].H2? {
      LeadingH2sRun(hs[1..]);
    }
  }

  /** Each heading as a leaf section, in order. */
  function Leaves(hs: seq<Heading>): seq<CodeSymbol> {
    if hs == [] then [] else [Leaf(hs[0])] + Leaves(hs[1..])
  }

  lemma {:induction false} LeavesSnoc(hs: seq<Heading>, h: Heading)
    ensures Leaves(hs + [h]) == Leaves(hs) + [Leaf(h)]
  {
    if hs == [] {
      assert Leaves([h]) == [Leaf(h)] + Leaves([]);
    } else {
      assert (hs + [h])[1..] == hs[1..] + [h];
      LeavesSnoc(hs[1..], h);
    }
  }

  /** A first-level section holding the second-level headings `run`. */
  function Group(h1: Heading, run: seq<Heading>): CodeSymbol {
    Leaf(h1).(children := if run == [] then NoChildren else Children(Leaves(run)))
  }

  /** The outline grouped the other way round from the pass that builds it: a
      second-level heading before any first-level one is a root of its own; a
      first-level heading owns the run of second-level headings that follows it. */
  function Sections(hs: seq<Heading>): seq<CodeSymbol>
    decreases |hs|
  {
    if hs == [] then []
    else if hs[0].H2? then [Leaf(hs[0])] + Sections(hs[1..])
    else
      var k := LeadingH2s(hs[1..]);
      [Group(hs[0], hs[1..][..k])] + Sections(hs[1..][k..])
  }

  predicate HasH1(hs: seq<Heading>) {
    exists i :: 0 <= i < |hs| && hs[i].H1?
  }

  /** `currentH1.children.push(h2)`, creating the array on the first push. */
  function AddChild(s: CodeSymbol, h2: CodeSymbol): CodeSymbol {
    s.(children := Children(Kids(s) + [h2]))
  }

  lemma {:induction false} LeadingH2sSnoc(hs: seq<Heading>, h: Heading)
    ensures LeadingH2s(hs + [h]) ==
              if LeadingH2s(hs) == |hs| && h.H2? then |hs| + 1 else LeadingH2s(hs)
  {
    if hs != [] {
      assert (hs + [h])[1..] == hs[1..] + [h];
      LeadingH2sSnoc(hs[1..], h);
    } else {
      assert (hs + [h])[1..] == [];
    }
  }

  /** A new first-level heading opens a new root section. */
  lemma {:induction false} SectionsSnocH1(hs: seq<Heading>, h: Heading)
    requires h.H1?
    ensures Sections(hs + [h]) == Sections(hs) + [Leaf(h)]
    decreases |hs|
  {
    var xs := hs + [h];
    if hs == [] {
      assert xs[1..] == [];
      assert LeadingH2s(xs[1..]) == 0;
      assert Group(h, []) == Leaf(h);
      assert Sections(xs) == [Leaf(h)] + Sections([]);
    } else if hs[0].H2? {
      assert xs[1..] == hs[1..] + [h];
      SectionsSnocH1(hs[1..], h);
    } else {
      var rest := hs[1..];
      assert xs[1..] == rest + [h];
      LeadingH2sSnoc(rest, h);
      var k := LeadingH2s(rest);
      assert xs[1..][..k] == rest[..k];
      assert Sections(xs) == [Group(hs[0], rest[..k])] + Sections(xs[1..][k..]);
      assert Sections(hs) == [Group(hs[0], rest[..k])] + Sections(rest[k..]);
      assert xs[1..][k..] == rest[k..] + [h];
      SectionsSnocH1(rest[k..], h);
    }
  }

  /** Past a leading second-level heading, a first-level one occurs in `hs` exactly
      when one occurs in the rest. */
  lemma HasH1Tail(hs: seq<Heading>)
    requires hs != [] && hs[0].H2?
    ensures HasH1(hs) <==> HasH1(hs[1..])
  {
    if HasH1(hs) {
      var i :| 0 <= i < |hs| && hs[i].H1?;
      assert hs[1..][i - 1].H1?;
    }
    if HasH1(hs[1..]) {
      var i :| 0 <= i < |hs[1..]| && hs[1..][i].H1?;
      assert hs[i + 1].H1?;
    }
  }

  /** Appending a second-level heading adds no first-level one. */
  lemma HasH1SnocH2(hs: seq<Heading>, h: Heading)
    requires h.H2?
    ensures HasH1(hs + [h]) <==> HasH1(hs)
  {
    if HasH1(hs + [h]) {
      var j :| 0 <= j < |hs| + 1 && (hs + [h])[j].H1?;
      assert hs[j].H1?;
    }
    if HasH1(hs) {
      var j :| 0 <= j < |hs| && hs[j].H1?;
      assert (hs + [h])[j].H1?;
    }
  }

  /** One more second-level heading at the end of a section's run is one more child. */
  lemma {:induction false} GroupSnoc(h1: Heading, run: seq<Heading>, h: Heading)
    ensures Group(h1, run + [h]) == AddChild(Group(h1, run), Leaf(h))
  {
    LeavesSnoc(run, h);
  }

  /** Without an earlier first-level heading, a second-level one is a root. */
  lemma {:induction false} SectionsSnocOrphanH2(hs: seq<Heading>, h: Heading)
    requires h.H2? && !HasH1(hs)
    ensures Sections(hs + [h]) == Sections(hs) + [Leaf(h)]
    decreases |hs|
  {
    var xs := hs + [h];
    if hs == [] {
      assert xs[1..] == [];
      assert Sections(xs) == [Leaf(h)] + Sections([]);
    } else {
      assert !hs[0].H1?;
      assert xs[1..] == hs[1..] + [h];
      HasH1Tail(hs);
      SectionsSnocOrphanH2(hs[1..], h);
    }
  }

  /** The forest with `child` appended to the children of its last root. */
  function NestLast(ss: seq<CodeSymbol>, child: CodeSymbol): (r: seq<CodeSymbol>)
    requires ss != []
    ensures |r| == |ss| && r[..|ss| - 1] == ss[..|ss| - 1]
    ensures r[|ss| - 1] == AddChild(ss[|ss| - 1], child)
  {
    ss[|ss| - 1 := AddChild(ss[|ss| - 1], child)]
  }

  lemma NestLastCons(a: CodeSymbol, ss: seq<CodeSymbol>, child: CodeSymbol)
    requires ss != []
    ensures NestLast([a] + ss, child) == [a] + NestLast(ss, child)
  {
    var l := NestLast([a] + ss, child);
    var r := [a] + NestLast(ss, child);
    assert |l| == |r|;
    forall i | 0 <= i < |l| ensures l[i] == r[i] {
      if i < |l| - 1 {
        assert l[i] == l[..|ss|][i] == ([a] + ss)[i];
        if i > 0 {
          assert NestLast(ss, child)[i - 1] == NestLast(ss, child)[..|ss| - 1][i - 1];
        }
      }
    }
  }

  /** After a first-level heading, a second-level one becomes the last root's last child. */
  lemma {:induction false} SectionsSnocNestedH2(hs: seq<Heading>, h: Heading)
    requires h.H2? && HasH1(hs)
    ensures Sections(hs) != []
    ensures Sections(hs + [h]) == NestLast(Sections(hs), Leaf(h))
    decreases |hs|, 1
  {
    var xs := hs + [h];
    assert xs[1..] == hs[1..] + [h];
    if hs[0].H2? {
      HasH1Tail(hs);
      SectionsSnocNestedH2(hs[1..], h);
      assert Sections(hs) == [Leaf(hs[0])] + Sections(hs[1..]);
      assert Sections(xs) == [Leaf(hs[0])] + Sections(hs[1..] + [h]);
      NestLastCons(Leaf(hs[0]), Sections(hs[1..]), Leaf(h));
    } else {
      var rest := hs[1..];
      LeadingH2sSnoc(rest, h);
      var k := LeadingH2s(rest);
      var head := Group(hs[0], rest[..k]);
      if k == |rest| {
        assert rest[k..] == [];
        assert Sections(hs) == [head];
        assert xs[1..][..k + 1] == rest[..k] + [h];
        assert xs[1..][k + 1..] == [];
        GroupSnoc(hs[0], rest[..k], h);
        assert Sections(xs) == [Group(hs[0], rest[..k] + [h])] + Sections([]);
      } else {
        SectionsSnocNestedH1Head(hs, h);
      }
    }
  }

  /** The case of `SectionsSnocNestedH2` where the last root is not the first one. */
  lemma {:induction false} SectionsSnocNestedH1Head(hs: seq<Heading>, h: Heading)
    requires h.H2? && hs != [] && hs[0].H1?
    requires LeadingH2s(hs[1..]) < |hs[1..]|
    ensures Sections(hs) != []
    ensures Sections(hs + [h]) == NestLast(Sections(hs), Leaf(h))
    decreases |hs|, 0
  {
    var xs := hs + [h];
    var rest := hs[1..];
    assert xs[1..] == rest + [h];
    LeadingH2sSnoc(rest, h);
    var k := LeadingH2s(rest);
    var head := Group(hs[0], rest[..k]);
    var tail := rest[k..];
    LeadingH2sRun(rest);
    assert tail[0].H1?;
    assert HasH1(tail);
    assert xs[1..][..k] == rest[..k];
    assert xs[1..][k..] == tail + [h];
    SectionsSnocNestedH2(tail, h);
    assert Sections(hs) == [head] + Sections(tail);
    assert Sections(xs) == [head] + Sections(tail + [h]);
    NestLastCons(head, Sections(tail), Leaf(h));
  }

  /** One more line adds its heading, if it holds one. */
  lemma HeadingsSnoc(lines: seq<string>, i: nat)
    requires i < |lines|
    ensures Headings(lines[..i + 1]) == Headings(lines[..i]) +
              (if Classify(lines[i], i + 1).Some? then [Classify(lines[i], i + 1).value] else [])
  {
    assert lines[..i + 1][..i] == lines[..i];
  }

  /** `extractMarkdownSymbols` as a value: the sections of the document's headings. */
  function Outline(content: string): seq<CodeSymbol> {
    Sections(Headings(Split(content, '\n')))
  }

  /** The headings `hs` followed by the heading on `line`, if it holds one. */
  function WithLine(hs: seq<Heading>, line: string, row: nat): seq<Heading> {
    hs + (if Classify(line, row).Some? then [Classify(line, row).value] else [])
  }

  /** `symbols` and `currentH1` as the loop keeps them after the headings `hs`. */
  predicate Scanned(hs: seq<Heading>, symbols: seq<CodeSymbol>, currentH1: Option<nat>) {
    && symbols == Sections(hs)
    && (currentH1.Some? <==> HasH1(hs))
    && (currentH1.Some? ==> currentH1.value == |symbols| - 1)
  }

  /** One iteration of the loop of `extractMarkdownSymbols`, on the line of number `row`. */
  method ScanLine(line: string, row: nat, ghost hs: seq<Heading>,
                  symbols: seq<CodeSymbol>, currentH1: Option<nat>)
    returns (symbols': seq<CodeSymbol>, currentH1': Option<nat>)
    requires Scanned(hs, symbols, currentH1)
    ensures Scanned(WithLine(hs, line, row), symbols', currentH1')
  {
    symbols', currentH1' := symbols, currentH1;
    var trimmed := Trim(line);
    if StartsWith(trimmed, "# ") && !StartsWith(trimmed, "##") {
      var name := Trim(trimmed[2..]);
      MarkerNameNonEmpty(line, "# ");
      if name != "" {
        var h1 := CodeSymbol(name, Section, None, None, row, NoChildren, None);
        assert Classify(line, row) == Some(H1(name, row));
        SectionsSnocH1(hs, H1(name, row));
        assert (hs + [H1(name, row)])[|hs|].H1?;
        symbols' := symbols + [h1];
        currentH1' := Some(|symbols'| - 1);
        assert WithLine(hs, line, row) == hs + [H1(name, row)];
      } else {
        assert false;
      }
    } else if StartsWith(trimmed, "## ") {
      var name := Trim(trimmed[3..]);
      MarkerNameNonEmpty(line, "## ");
      if name != "" {
        symbols', currentH1' := ScanH2(name, row, hs, symbols, currentH1);
        assert Classify(line, row) == Some(H2(name, row));
        assert WithLine(hs, line, row) == hs + [H2(name, row)];
      } else {
        assert false;
      }
    } else {
      assert Classify(line, row).None?;
      assert WithLine(hs, line, row) == hs;
    }
  }

  /** A second-level heading: nested in the current first-level section, or a root. */
  method ScanH2(name: string, row: nat, ghost hs: seq<Heading>,
                symbols: seq<CodeSymbol>, currentH1: Option<nat>)
    returns (symbols': seq<CodeSymbol>, currentH1': Option<nat>)
    requires Scanned(hs, symbols, currentH1)
    ensures Scanned(hs + [H2(name, row)], symbols', currentH1')
  {
    var h2 := CodeSymbol(name, Section, None, None, row, NoChildren, None);
    HasH1SnocH2(hs, H2(name, row));
    currentH1' := currentH1;
    if currentH1.Some? {
      SectionsSnocNestedH2(hs, H2(name, row));
      var parent := symbols[currentH1.value];
      symbols' := symbols[currentH1.value := AddChild(parent, h2)];
      assert symbols' == NestLast(symbols, h2);
    } else {
      SectionsSnocOrphanH2(hs, H2(name, row));
      symbols' := symbols + [h2];
    }
  }

  /** `extractMarkdownSymbols`: the content split at line feeds, then one pass over the
      lines. */
  method ExtractMarkdownSymbols(content: string) returns (symbols: seq<CodeSymbol>)
    ensures symbols == Outline(content)
  {
    var lines := Split(content, '\n');
    symbols := ScanLines(lines);
  }

  /** The loop of `extractMarkdownSymbols`, with the current first-level section
      remembered by its position in `symbols`. */
  method ScanLines(lines: seq<string>) returns (symbols: seq<CodeSymbol>)
    ensures symbols == Sections(Headings(lines))
  {
    symbols := [];
    var currentH1: Option<nat> := None;
    assert lines[..0] == [];
    for i := 0 to |lines|
      invariant Scanned(Headings(lines[..i]), symbols, currentH1)
    {
      HeadingsSnoc(lines, i);
      assert WithLine(Headings(lines[..i]), lines[i], i + 1) == Headings(lines[..i + 1]);
      symbols, currentH1 := ScanLine(lines[i], i + 1, Headings(lines[..i]), symbols, currentH1);
    }
    assert lines[..|lines|] == lines;
  }

  lemma {:induction false} LeavesAppend(a: seq<Heading>, b: seq<Heading>)
    ensures Leaves(a + b) == Leaves(a) + Leaves(b)
  {
    if a == [] {
      assert a + b == b;
    } else {
      assert (a + b)[1..] == a[1..] + b;
      LeavesAppend(a[1..], b);
    }
  }

  /** Leaves are already flat. */
  lemma {:induction false} FlattenLeaves(hs: seq<Heading>)
    ensures FlattenAll(Leaves(hs)) == Leaves(hs)
  {
    if hs != [] {
      FlattenLeaves(hs[1..]);
      assert Flatten(Leaf(hs[0])) == [Leaf(hs[0])];
      assert Leaves(hs) == [Leaf(hs[0])] + Leaves(hs[1..]);
    }
  }

  /** Read in document order, the outline lists every heading exactly once, in the
      order of the document, as a section with its name and line: grouping loses and
      reorders nothing. */
  lemma {:induction false} SectionsPreorder(hs: seq<Heading>)
    ensures FlattenAll(Sections(hs)) == Leaves(hs)
    decreases |hs|
  {
    if hs == [] {
    } else if hs[0].H2? {
      SectionsPreorder(hs[1..]);
      assert Flatten(Leaf(hs[0])) == [Leaf(hs[0])];
      FlattenAllAppend([Leaf(hs[0])], Sections(hs[1..]));
      assert FlattenAll([Leaf(hs[0])]) == [Leaf(hs[0])];
    } else {
      var rest := hs[1..];
      var k := LeadingH2s(rest);
      var run := rest[..k];
      var g := Group(hs[0], run);
      SectionsPreorder(rest[k..]);
      FlattenAllAppend([g], Sections(rest[k..]));
      assert FlattenAll([g]) == Flatten(g);
      FlattenLeaves(run);
      assert Flatten(g) == [Leaf(hs[0])] + Leaves(run) by {
        assert Strip(g) == Leaf(hs[0]);
        if run == [] {
          assert Leaves(run) == [];
        }
      }
      assert rest == run + rest[k..];
      LeavesAppend(run, rest[k..]);
      assert Leaves(hs) == [Leaf(hs[0])] + Leaves(rest);
    }
  }

  /** Each heading once: the outline has as many symbols as the document has headings. */
  lemma SectionsSize(hs: seq<Heading>)
    ensures Size(Sections(hs)) == |hs|
  {
    SectionsPreorder(hs);
    FlattenAllSize(Sections(hs));
    LeavesLength(hs);
  }

  lemma {:induction false} LeavesLength(hs: seq<Heading>)
    ensures |Leaves(hs)| == |hs|
  {
    if hs != [] {
      LeavesLength(hs[1..]);
    }
  }

  /** What the pass produces: a named section on a real line, with no signature,
      docblock or visibility, whose children array is only there when it holds one. */
  predicate SectionShaped(s: CodeSymbol) {
    && s.name != "" && s.kind == Section && s.line >= 1
    && s.signature.None? && s.docblock.None? && s.visibility.None?
    && (s.children.Children? ==> Kids(s) != [])
  }

  predicate HeadingOk(h: Heading) {
    h.name != "" && h.line >= 1
  }

  lemma {:induction false} LeavesShaped(hs: seq<Heading>)
    requires forall i :: 0 <= i < |hs| ==> HeadingOk(hs[i])
    ensures AllSymbols(Leaves(hs), SectionShaped)
    ensures DepthAtMost(Leaves(hs), 1)
  {
    if hs != [] {
      LeavesShaped(hs[1..]);
      var l := Leaves(hs);
      assert l == [Leaf(hs[0])] + Leaves(hs[1..]);
      forall i | 0 <= i < |l| ensures Holds(l[i], SectionShaped) && SymbolDepthAtMost(l[i], 1) {
        if i > 0 {
          assert l[i] == Leaves(hs[1..])[i - 1];
        }
      }
    }
  }

  /** Every section of the outline is shaped as the pass builds it, and the outline
      nests at most two levels deep. */
  lemma {:induction false} SectionsShaped(hs: seq<Heading>)
    requires forall i :: 0 <= i < |hs| ==> HeadingOk(hs[i])
    ensures AllSymbols(Sections(hs), SectionShaped)
    ensures DepthAtMost(Sections(hs), 2)
    decreases |hs|
  {
    if hs != [] {
      var first: CodeSymbol;
      var rest: seq<Heading>;
      if hs[0].H2? {
        first := Leaf(hs[0]);
        rest := hs[1..];
        assert Sections(hs) == [first] + Sections(rest);
      } else {
        var k := LeadingH2s(hs[1..]);
        var run := hs[1..][..k];
        first := Group(hs[0], run);
        rest := hs[1..][k..];
        assert Sections(hs) == [first] + Sections(rest);
        forall i | 0 <= i < |run| ensures HeadingOk(run[i]) {
          assert run[i] == hs[i + 1];
        }
        GroupShaped(hs[0], run);
      }
      forall i | 0 <= i < |rest| ensures HeadingOk(rest[i]) {
        assert rest[i] in hs;
      }
      SectionsShaped(rest);
      AllSymbolsAppend([first], Sections(rest), SectionShaped);
      DepthAtMostCons(first, Sections(rest), 2);
    }
  }

  lemma GroupShaped(h1: Heading, run: seq<Heading>)
    requires h1.H1? && HeadingOk(h1) && forall i :: 0 <= i < |run| ==> HeadingOk(run[i])
    ensures Holds(Group(h1, run), SectionShaped)
    ensures SymbolDepthAtMost(Group(h1, run), 2)
  {
    LeavesShaped(run);
    LeavesLength(run);
  }

  lemma DepthAtMostCons(first: CodeSymbol, rest: seq<CodeSymbol>, d: nat)
    requires SymbolDepthAtMost(first, d) && DepthAtMost(rest, d)
    ensures DepthAtMost([first] + rest, d)
  {
    var all := [first] + rest;
    forall i | 0 <= i < |all| ensures SymbolDepthAtMost(all[i], d) {
      if i > 0 {
        assert all[i] == rest[i - 1];
      }
    }
  }

  /** Every heading `Headings` finds has a name and a line. */
  lemma {:induction false} HeadingsOk(lines: seq<string>)
    ensures forall i :: 0 <= i < |Headings(lines)| ==> HeadingOk(Headings(lines)[i])
  {
    if lines != [] {
      var n := |lines|;
      var init := Headings(lines[..n - 1]);
      HeadingsOk(lines[..n - 1]);
      var c := Classify(lines[n - 1], n);
      if c.Some? {
        assert Headings(lines) == init + [c.value];
        forall i | 0 <= i < |init| + 1 ensures HeadingOk((init + [c.value])[i]) {
          if i < |init| {
            assert (init + [c.value])[i] == init[i];
          }
        }
      } else {
        assert Headings(lines) == init;
      }
    }
  }

  /** The outline's properties for a whole document: every heading exactly once, in
      document order (lines strictly increasing), sections only, at most two levels. */
  lemma OutlineProperties(content: string)
    ensures FlattenAll(Outline(content)) == Leaves(Headings(Split(content, '\n')))
    ensures forall i, j :: 0 <= i < j < |FlattenAll(Outline(content))| ==>
              FlattenAll(Outline(content))[i].line < FlattenAll(Outline(content))[j].line
    ensures AllSymbols(Outline(content), SectionShaped)
    ensures DepthAtMost(Outline(content), 2)
  {
    var hs := Headings(Split(content, '\n'));
    SectionsPreorder(hs);
    LeavesLines(hs);
    HeadingsOk(Split(content, '\n'));
    SectionsShaped(hs);
  }

  lemma {:induction false} LeavesLines(hs: seq<Heading>)
    ensures |Leaves(hs)| == |hs|
    ensures forall i :: 0 <= i < |hs| ==> Leaves(hs)[i].line == hs[i].line
  {
    if hs != [] {
      LeavesLines(hs[1..]);
      assert Leaves(hs) == [Leaf(hs[0])] + Leaves(hs[1..]);
    }
  }

  /** An empty document has no outline. */
  lemma EmptyOutline()
    ensures Outline("") == []
  {
    assert Split("", '\n') == [""];
    assert Classify("", 1).None?;
  }

  /** Two chapters with one subsection each: each subsection nests under its own
      chapter; a subsection before any chapter stays at the root. */
  lemma NestingExample()
    ensures Sections([H1("A", 1), H2("A1", 2), H1("B", 3), H2("B1", 4)]) ==
              [Group(H1("A", 1), [H2("A1", 2)]), Group(H1("B", 3), [H2("B1", 4)])]
    ensures Sections([H2("Intro", 1), H1("A", 2)]) ==
              [Leaf(H2("Intro", 1)), Leaf(H1("A", 2))]
  {
    var hs := [H1("A", 1), H2("A1", 2), H1("B", 3), H2("B1", 4)];
    assert hs[1..] == [H2("A1", 2), H1("B", 3), H2("B1", 4)];
    assert LeadingH2s(hs[1..]) == 1 by {
      assert hs[1..][1..] == [H1("B", 3), H2("B1", 4)];
    }
    assert hs[1..][..1] == [H2("A1", 2)];
    var tail := hs[1..][1..];
    assert tail == [H1("B", 3), H2("B1", 4)];
    assert LeadingH2s(tail[1..]) == 1 by {
      assert tail[1..][1..] == [];
    }
    assert tail[1..][..1] == [H2("B1", 4)];
    assert tail[1..][1..] == [];
    var orphan := [H2("Intro", 1), H1("A", 2)];
    assert orphan[1..] == [H1("A", 2)];
    assert orphan[1..][1..] == [];
    assert LeadingH2s(orphan[1..][1..]) == 0;
    assert orphan[1..][1..][..0] == [];
  }
}
