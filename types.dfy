/** The shared outline datatypes: symbol kinds, extracted symbols and a file's symbols. */
module Types {
  import opened Wrappers

  /** The closed set of declaration kinds. */
  datatype SymbolKind =
    | Namespace | Module | Package | Class | Struct | Interface | Trait
    | Function | Method | Type | Enum | Constant | Section

  /** The kind as the string the source stores in `kind`. */
  function KindName(k: SymbolKind): string {
    match k
    case Namespace => "namespace"
    case Module => "module"
    case Package => "package"
    case Class => "class"
    case Struct => "struct"
    case Interface => "interface"
    case Trait => "trait"
    case Function => "function"
    case Method => "method"
    case Type => "type"
    case Enum => "enum"
    case Constant => "constant"
    case Section => "section"
  }

  /** Reads a kind string back; `None` for a string outside the union type. */
  function KindOfName(s: string): (r: Option<SymbolKind>)
    ensures r.Some? ==> KindName(r.value) == s
  {
    if s == "namespace" then Some(Namespace)
    else if s == "module" then Some(Module)
    else if s == "package" then Some(Package)
    else if s == "class" then Some(Class)
    else if s == "struct" then Some(Struct)
    else if s == "interface" then Some(Interface)
    else if s == "trait" then Some(Trait)
    else if s == "function" then Some(Function)
    else if s == "method" then Some(Method)
    else if s == "type" then Some(Type)
    else if s == "enum" then Some(Enum)
    else if s == "constant" then Some(Constant)
    else if s == "section" then Some(Section)
    else None
  }

  /** Every kind has its own name: the thirteen names are pairwise different. */
  lemma KindNameRoundTrip(k: SymbolKind)
    ensures KindOfName(KindName(k)) == Some(k)
  {
  }

  /** The four visibility modifiers. */
  datatype Visibility = Public | Private | Protected | Export

  function VisibilityName(v: Visibility): (r: string)
    ensures |r| > 0 && 'a' <= r[0] <= 'z' && 'a' <= r[|r| - 1] <= 'z'
  {
    match v
    case Public => "public"
    case Private => "private"
    case Protected => "protected"
    case Export => "export"
  }

  /** An optional `children` array: absent, or present (possibly empty). */
  datatype SymbolChildren = NoChildren | Children(items: seq<CodeSymbol>)

  /** One extracted declaration; `signature`, `docblock`, `children` and `visibility`
      are optional, `name`, `kind` and `line` always present. */
  datatype CodeSymbol = CodeSymbol(
    name: string,
    kind: SymbolKind,
    signature: Option<string>,
    docblock: Option<string>,
    line: int,
    children: SymbolChildren,
    visibility: Option<Visibility>)

  /** A file paired with its language and its root symbol list. */
  datatype FileSymbols = FileSymbols(path: string, language: string, symbols: seq<CodeSymbol>)

  /** The children list, empty when absent. */
  function Kids(s: CodeSymbol): (r: seq<CodeSymbol>)
    ensures forall x :: x in r ==> x < s
    ensures s.children.NoChildren? ==> r == []
  {
    match s.children
    case NoChildren => []
    case Children(items) => items
  }

  /** A JavaScript truthiness test on an optional string: present and non-empty. */
  predicate Truthy(s: Option<string>) {
    s.Some? && s.value != ""
  }

  /** `p` holds of `s` and of every symbol nested below it. */
  predicate Holds(s: CodeSymbol, p: CodeSymbol -> bool) {
    p(s) && forall c :: c in Kids(s) ==> Holds(c, p)
  }

  /** `p` holds of every symbol of the forest, at every depth. */
  predicate AllSymbols(forest: seq<CodeSymbol>, p: CodeSymbol -> bool) {
    forall i :: 0 <= i < |forest| ==> Holds(forest[i], p)
  }

  /** The number of symbols in `s` and below it. */
  function SymbolSize(s: CodeSymbol): nat {
    1 + match s.children
        case NoChildren => 0
        case Children(items) => Size(items)
  }

  /** The number of symbols of a forest, at every depth. */
  function Size(forest: seq<CodeSymbol>): nat {
    if forest == [] then 0 else SymbolSize(forest[0]) + Size(forest[1..])
  }

  /** `s` nests at most `d` levels deep, itself included. */
  predicate SymbolDepthAtMost(s: CodeSymbol, d: nat) {
    d >= 1 && match s.children
              case NoChildren => true
              case Children(items) => DepthAtMost(items, d - 1)
  }

  /** The forest nests at most `d` levels deep. */
  predicate DepthAtMost(forest: seq<CodeSymbol>, d: nat) {
    forall i :: 0 <= i < |forest| ==> SymbolDepthAtMost(forest[i], d)
  }

  /** Sizes add up over concatenation. */
  lemma {:induction false} SizeAppend(a: seq<CodeSymbol>, b: seq<CodeSymbol>)
    ensures Size(a + b) == Size(a) + Size(b)
  {
    if a == [] {
      assert a + b == b;
    } else {
      assert (a + b)[0] == a[0];
      assert (a + b)[1..] == a[1..] + b;
      SizeAppend(a[1..], b);
    }
  }

  /** `AllSymbols` splits over concatenation. */
  lemma AllSymbolsAppend(a: seq<CodeSymbol>, b: seq<CodeSymbol>, p: CodeSymbol -> bool)
    ensures AllSymbols(a + b, p) <==> AllSymbols(a, p) && AllSymbols(b, p)
  {
    if AllSymbols(a + b, p) {
      forall i | 0 <= i < |b| ensures Holds(b[i], p) {
        assert (a + b)[|a| + i] == b[i];
      }
      forall i | 0 <= i < |a| ensures Holds(a[i], p) {
        assert (a + b)[i] == a[i];
      }
    }
    if AllSymbols(a, p) && AllSymbols(b, p) {
      forall i | 0 <= i < |a + b| ensures Holds((a + b)[i], p) {
        if i < |a| { assert (a + b)[i] == a[i]; } else { assert (a + b)[i] == b[i - |a|]; }
      }
    }
  }

  /** `s` without its children. */
  function Strip(s: CodeSymbol): CodeSymbol {
    s.(children := NoChildren)
  }

  /** `s` and the symbols below it in document order (each without its children). */
  function Flatten(s: CodeSymbol): seq<CodeSymbol> {
    [Strip(s)] + match s.children
                 case NoChildren => []
                 case Children(items) => FlattenAll(items)
  }

  /** The symbols of a forest in document order: each root, then what nests below it. */
  function FlattenAll(forest: seq<CodeSymbol>): seq<CodeSymbol> {
    if forest == [] then [] else Flatten(forest[0]) + FlattenAll(forest[1..])
  }

  /** Flattening lists each symbol of the forest once. */
  lemma {:induction false} FlattenAllSize(forest: seq<CodeSymbol>)
    ensures |FlattenAll(forest)| == Size(forest)
  {
    if forest != [] {
      FlattenSize(forest[0]);
      FlattenAllSize(forest[1..]);
    }
  }

  lemma {:induction false} FlattenSize(s: CodeSymbol)
    ensures |Flatten(s)| == SymbolSize(s)
  {
    match s.children
    case NoChildren =>
    case Children(items) => FlattenAllSize(items);
  }

  /** A forest of one tree flattens to that tree. */
  lemma FlattenAllSingle(x: CodeSymbol)
    ensures FlattenAll([x]) == Flatten(x)
  {
    assert [x][1..] == [];
  }

  /** Flattening distributes over concatenation. */
  lemma {:induction false} FlattenAllAppend(a: seq<CodeSymbol>, b: seq<CodeSymbol>)
    ensures FlattenAll(a + b) == FlattenAll(a) + FlattenAll(b)
  {
    if a == [] {
      assert a + b == b;
    } else {
      assert (a + b)[0] == a[0];
      assert (a + b)[1..] == a[1..] + b;
      FlattenAllAppend(a[1..], b);
    }
  }
}
