/**
 * Generic facts about sequences, stated once so that the proofs over symbols, lines and
 * entries can cite them instead of re-deriving sequence equalities over their element
 * types.
 */
module Sequences {
  lemma AppendAssoc<T>(a: seq<T>, b: seq<T>, c: seq<T>)
    ensures (a + b) + c == a + (b + c)
  {
  }

  /** A prefix put in front of a four-part concatenation. */
  lemma PrependAssoc<T>(a: seq<T>, b: seq<T>, c: seq<T>, d: seq<T>, e: seq<T>)
    ensures a + (((b + c) + d) + e) == (((a + b) + c) + d) + e
  {
  }

  /** Two prefixes, one of them empty, can be swapped. */
  lemma SwapAroundEmpty<T>(p: seq<T>, q: seq<T>, tail: seq<T>)
    requires p == [] || q == []
    ensures p + (q + tail) == q + (p + tail)
  {
    if p == [] { assert p + (q + tail) == q + tail; } else { assert q + (p + tail) == p + tail; }
  }

  /** A non-empty list is its first element followed by the rest. */
  lemma HeadSplit<T>(s: seq<T>)
    requires s != []
    ensures s == [s[0]] + s[1..]
  {
  }

  /** A non-empty list is its prefix followed by its last element. */
  lemma LastSplit<T>(s: seq<T>)
    requires s != []
    ensures s == s[..|s| - 1] + [s[|s| - 1]]
  {
  }

  /** A prefix grows by the next element. */
  lemma PrefixSnoc<T>(s: seq<T>, i: nat)
    requires i < |s|
    ensures s[..i + 1] == s[..i] + [s[i]]
  {
  }
}
