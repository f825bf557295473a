/**
 * The short kind labels the renderers print in front of a symbol's name: the shared
 * `getKindPrefix` of src/formatter/utils.ts, and the private copy that
 * src/formatter/file.ts and src/formatter/directory.ts each carry, which lacks the
 * `package` and `section` cases. Both take any string, as the JavaScript functions do
 * at run time, and return an unknown one unchanged.
 */
module KindPrefixes {
  import opened Types

  /** `getKindPrefix` of src/formatter/utils.ts. */
  function KindPrefix(kind: string): string {
    if kind == "function" || kind == "method" then "fn"
    else if kind == "class" then "class"
    else if kind == "interface" then "interface"
    else if kind == "type" then "type"
    else if kind == "enum" then "enum"
    else if kind == "struct" then "struct"
    else if kind == "trait" then "trait"
    else if kind == "namespace" || kind == "module" then "namespace"
    else if kind == "constant" then "const"
    else if kind == "package" then "package"
    else if kind == "section" then "#"
    else kind
  }

  /** The private `getKindPrefix` of the file and directory renderers. */
  function LocalKindPrefix(kind: string): string {
    if kind == "function" || kind == "method" then "fn"
    else if kind == "class" then "class"
    else if kind == "interface" then "interface"
    else if kind == "type" then "type"
    else if kind == "enum" then "enum"
    else if kind == "struct" then "struct"
    else if kind == "trait" then "trait"
    else if kind == "namespace" || kind == "module" then "namespace"
    else if kind == "constant" then "const"
    else kind
  }

  /** The labels per kind: `fn` for functions and methods, `namespace` for namespaces
      and modules, `const` for constants, `#` for sections, and the kind's own name for
      the seven others. */
  lemma KindPrefixTable(k: SymbolKind)
    ensures k == Function || k == Method <==> KindPrefix(KindName(k)) == "fn"
    ensures k == Namespace || k == Module <==> KindPrefix(KindName(k)) == "namespace"
    ensures k == Constant <==> KindPrefix(KindName(k)) == "const"
    ensures k == Section <==> KindPrefix(KindName(k)) == "#"
    ensures k in {Class, Interface, Type, Enum, Struct, Trait, Package} ==>
              KindPrefix(KindName(k)) == KindName(k)
  {
    KindLabelAgrees(k);
  }

  /** Printing the label loses exactly two distinctions: function against method, and
      namespace against module. */
  lemma KindPrefixCollapses(a: SymbolKind, b: SymbolKind)
    requires KindPrefix(KindName(a)) == KindPrefix(KindName(b))
    ensures a == b || (a in {Function, Method} && b in {Function, Method})
                   || (a in {Namespace, Module} && b in {Namespace, Module})
  {
    KindLabelAgrees(a);
    KindLabelAgrees(b);
  }

  /** The label `getKindPrefix` gives a kind, by cases on the kind. */
  function KindLabel(k: SymbolKind): string {
    match k
    case Function => "fn"
    case Method => "fn"
    case Namespace => "namespace"
    case Module => "namespace"
    case Constant => "const"
    case Section => "#"
    case _ => KindName(k)
  }

  lemma KindLabelAgrees(k: SymbolKind)
    ensures KindLabel(k) == KindPrefix(KindName(k))
  {
  }

  /** A string that names no kind is returned unchanged. */
  lemma UnknownKindUnchanged(s: string)
    requires KindOfName(s).None?
    ensures KindPrefix(s) == s && LocalKindPrefix(s) == s
  {
  }

  /** The renderers' private copy agrees with the shared one everywhere except on
      `section`, which it prints as `section` rather than `#`. */
  lemma LocalKindPrefixAgrees(s: string)
    ensures s != "section" ==> LocalKindPrefix(s) == KindPrefix(s)
    ensures LocalKindPrefix("section") == "section" && KindPrefix("section") == "#"
  {
  }

  /** The label the renderers' private copy gives a kind, by cases on the kind. */
  function LocalKindLabel(k: SymbolKind): string {
    match k
    case Function => "fn"
    case Method => "fn"
    case Namespace => "namespace"
    case Module => "namespace"
    case Constant => "const"
    case _ => KindName(k)
  }

  /** `LocalKindLabel` is the private `getKindPrefix` applied to the kind's name. */
  lemma LocalKindLabelAgrees(k: SymbolKind)
    ensures LocalKindLabel(k) == LocalKindPrefix(KindName(k))
  {
  }
}
