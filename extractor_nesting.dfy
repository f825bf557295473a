/**
 * How the organize loop of `extractSymbols` (src/parser/extractor.ts) nests the symbols
 * of the symbol map: every anchor it holds lands in the output exactly once, under its
 * nearest anchored ancestor or, without one, among the roots.
 *
 * `Under(x, k)` says that following parent anchors from `x` reaches `k`. The anchor ids
 * of the tree `BuildSymbol` makes for `k`, in document order, are `PreOrder(k)`; they are
 * the anchors under `k`, each once. Over the roots they are every key of the map, each
 * once, and the flattened forest is the map's symbols in that order. The sort by line
 * only permutes them.
 */
module ExtractorNesting {
  import opened Wrappers
  import opened Sequences
  import opened Types
  import opened OrderedMaps
  import opened Extractor

  /** No id occurs twice. */
  predicate Distinct(s: seq<nat>) {
    forall i, j :: 0 <= i < j < |s| ==> s[i] != s[j]
  }

  lemma DistinctSnoc(s: seq<nat>, x: nat)
    requires Distinct(s) && x !in s
    ensures Distinct(s + [x])
  {
    forall i, j | 0 <= i < j < |s + [x]| ensures (s + [x])[i] != (s + [x])[j] {
      assert (s + [x])[i] == s[i];
      if j < |s| { assert (s + [x])[j] == s[j]; }
    }
  }

  /** In a list without repetitions every element occurs once. */
  lemma {:induction false} DistinctCounts(s: seq<nat>)
    requires Distinct(s)
    ensures forall x :: multiset(s)[x] == if x in s then 1 else 0
  {
    if s != [] {
      var n := |s| - 1;
      var init := s[..n];
      assert Distinct(init);
      DistinctCounts(init);
      forall j | 0 <= j < |init| ensures init[j] != s[n] {
        assert init[j] == s[j];
      }
      assert s == init + [s[n]];
    }
  }

  // ---------------------------------------------------------------------------
  // The anchor relation

  /** `k` is `x` or one of the anchors met by following parent anchors up from `x`. */
  predicate Under(t: seq<Node>, m: OrderedMap<nat, CodeSymbol>, x: nat, k: nat)
    requires ValidTree(t) && x < |t|
    decreases t[x].depth
  {
    x == k || (ParentOf(t, m, x).Some? && Under(t, m, ParentOf(t, m, x).value, k))
  }

  /** A key `x` of the map that nests, at any depth, under `k`. */
  ghost predicate InSubtree(t: seq<Node>, m: OrderedMap<nat, CodeSymbol>, x: nat, k: nat)
    requires ValidTree(t) && TableOk(t, m)
  {
    x in m.entries && Under(t, m, x, k)
  }

  /** What a node nests under is no deeper than the node, and strictly shallower and
      a key when it is another node. */
  lemma {:induction false} UnderDepth(t: seq<Node>, m: OrderedMap<nat, CodeSymbol>, x: nat, k: nat)
    requires ValidTree(t) && x < |t|
    ensures Under(t, m, x, k) ==> k < |t| && t[k].depth <= t[x].depth
    ensures Under(t, m, x, k) && x != k ==> k in m.entries && t[k].depth < t[x].depth
    decreases t[x].depth
  {
    if x != k && ParentOf(t, m, x).Some? {
      UnderDepth(t, m, ParentOf(t, m, x).value, k);
    }
  }

  lemma {:induction false} UnderTrans(t: seq<Node>, m: OrderedMap<nat, CodeSymbol>, x: nat, c: nat, k: nat)
    requires ValidTree(t) && x < |t| && c < |t|
    requires Under(t, m, x, c) && Under(t, m, c, k)
    ensures Under(t, m, x, k)
    decreases t[x].depth
  {
    if x != c {
      UnderTrans(t, m, ParentOf(t, m, x).value, c, k);
    }
  }

  /** The anchors above a node form a chain: any two of them nest one under the other. */
  lemma {:induction false} UnderComparable(t: seq<Node>, m: OrderedMap<nat, CodeSymbol>, x: nat, a: nat, b: nat)
    requires ValidTree(t) && x < |t| && Under(t, m, x, a) && Under(t, m, x, b)
    ensures a < |t| && b < |t|
    ensures Under(t, m, a, b) || Under(t, m, b, a)
    decreases t[x].depth
  {
    UnderDepth(t, m, x, a);
    UnderDepth(t, m, x, b);
    if x != a && x != b {
      UnderComparable(t, m, ParentOf(t, m, x).value, a, b);
    }
  }

  /** Two nodes with the same parent anchor share nothing below them. */
  lemma SiblingsDisjoint(t: seq<Node>, m: OrderedMap<nat, CodeSymbol>, x: nat, a: nat, b: nat)
    requires ValidTree(t) && x < |t| && a < |t| && b < |t|
    requires ParentOf(t, m, a) == ParentOf(t, m, b)
    ensures Under(t, m, x, a) && Under(t, m, x, b) ==> a == b
  {
    if Under(t, m, x, a) && Under(t, m, x, b) {
      UnderComparable(t, m, x, a, b);
      if ParentOf(t, m, a).Some? {
        UnderDepth(t, m, ParentOf(t, m, a).value, b);
        UnderDepth(t, m, ParentOf(t, m, b).value, a);
      }
    }
  }

  /** A key strictly under `k` is under a key whose parent anchor is `k`. */
  lemma {:induction false} UnderStep(t: seq<Node>, m: OrderedMap<nat, CodeSymbol>, x: nat, k: nat)
    requires ValidTree(t) && TableOk(t, m) && x in m.entries
    ensures Under(t, m, x, k) && x != k ==>
              exists c :: c in m.entries && ParentOf(t, m, c) == Some(k) && Under(t, m, x, c)
    decreases t[x].depth
  {
    if Under(t, m, x, k) && x != k {
      var p := ParentOf(t, m, x).value;
      if p == k {
        assert Under(t, m, x, x);
      } else {
        UnderStep(t, m, p, k);
        var c :| c in m.entries && ParentOf(t, m, c) == Some(k) && Under(t, m, p, c);
        assert Under(t, m, x, c);
      }
    }
  }

  /** Every key is under a key without a parent anchor. */
  lemma {:induction false} UnderRoot(t: seq<Node>, m: OrderedMap<nat, CodeSymbol>, x: nat)
    requires ValidTree(t) && TableOk(t, m) && x in m.entries
    ensures exists r :: r in m.entries && ParentOf(t, m, r).None? && Under(t, m, x, r)
    decreases t[x].depth
  {
    if ParentOf(t, m, x).Some? {
      var p := ParentOf(t, m, x).value;
      UnderRoot(t, m, p);
      var r :| r in m.entries && ParentOf(t, m, r).None? && Under(t, m, p, r);
      assert Under(t, m, x, r);
    } else {
      assert Under(t, m, x, x);
    }
  }

  lemma {:induction false} ChildIdsDistinct(t: seq<Node>, m: OrderedMap<nat, CodeSymbol>, ks: seq<nat>, p: nat)
    requires ValidTree(t) && (forall i :: 0 <= i < |ks| ==> ks[i] < |t|) && Distinct(ks)
    ensures Distinct(ChildIds(t, m, ks, p))
  {
    if ks != [] {
      var n := |ks| - 1;
      var init := ks[..n];
      assert Distinct(init);
      ChildIdsDistinct(t, m, init, p);
      ChildIdsMembers(t, m, init, p);
      forall j | 0 <= j < |init| ensures init[j] != ks[n] {
        assert init[j] == ks[j];
      }
      assert ks == init + [ks[n]];
      ChildIdsSnoc(t, m, init, ks[n], p);
      if ParentOf(t, m, ks[n]) == Some(p) {
        DistinctSnoc(ChildIds(t, m, init, p), ks[n]);
      }
    }
  }

  lemma {:induction false} RootIdsDistinct(t: seq<Node>, m: OrderedMap<nat, CodeSymbol>, ks: seq<nat>)
    requires ValidTree(t) && (forall i :: 0 <= i < |ks| ==> ks[i] < |t|) && Distinct(ks)
    ensures Distinct(RootIds(t, m, ks))
  {
    if ks != [] {
      var n := |ks| - 1;
      var init := ks[..n];
      assert Distinct(init);
      RootIdsDistinct(t, m, init);
      RootIdsMembers(t, m, init);
      forall j | 0 <= j < |init| ensures init[j] != ks[n] {
        assert init[j] == ks[j];
      }
      assert ks == init + [ks[n]];
      RootIdsSnoc(t, m, init, ks[n]);
      if ParentOf(t, m, ks[n]).None? {
        DistinctSnoc(RootIds(t, m, init), ks[n]);
      }
    }
  }

  // ---------------------------------------------------------------------------
  // Anchor ids in document order

  function Concat(ss: seq<seq<nat>>): seq<nat> {
    if ss == [] then [] else Concat(ss[..|ss| - 1]) + ss[|ss| - 1]
  }

  lemma ConcatSnoc(ss: seq<seq<nat>>, s: seq<nat>)
    ensures Concat(ss + [s]) == Concat(ss) + s
  {
    assert (ss + [s])[..|ss|] == ss;
  }

  /** The anchor ids of the symbol `BuildSymbol` makes for `k`, in document order. */
  ghost function PreOrder(t: seq<Node>, m: OrderedMap<nat, CodeSymbol>, kids: map<nat, seq<nat>>, k: nat)
    : seq<nat>
    requires ValidTree(t) && TableOk(t, m) && KidsOk(t, m, kids) && k in m.entries
    decreases MaxDepth(t) - t[k].depth
  {
    if k !in kids then [k]
    else
      var ids := kids[k];
      [k] + Concat(seq(|ids|, i requires 0 <= i < |ids| => PreOrder(t, m, kids, ids[i])))
  }

  /** The anchor ids of the forest `BuildForest` makes, in document order. */
  ghost function ForestOrder(t: seq<Node>, m: OrderedMap<nat, CodeSymbol>): seq<nat>
    requires ValidTree(t) && TableOk(t, m)
  {
    ChildMapOk(t, m);
    var kids := ChildMap(t, m, m.keys);
    var roots := RootIds(t, m, m.keys);
    assert forall i :: 0 <= i < |roots| ==> roots[i] in m.entries by {
      RootIdsMembers(t, m, m.keys);
      forall i | 0 <= i < |roots| ensures roots[i] in m.entries {
        assert roots[i] in roots;
      }
    }
    Concat(seq(|roots|, i requires 0 <= i < |roots| => PreOrder(t, m, kids, roots[i])))
  }

  /** Some id of `ids` has `x` under it. */
  ghost predicate UnderSome(t: seq<Node>, m: OrderedMap<nat, CodeSymbol>, x: nat, ids: seq<nat>)
    requires ValidTree(t) && TableOk(t, m)
  {
    exists i :: 0 <= i < |ids| && InSubtree(t, m, x, ids[i])
  }

  /** Siblings share no key: `x` is under at most one of them. */
  lemma UnderOneSibling(t: seq<Node>, m: OrderedMap<nat, CodeSymbol>, ids: seq<nat>, par: Option<nat>, x: nat)
    requires ValidTree(t) && TableOk(t, m) && Distinct(ids) && ids != []
    requires forall i :: 0 <= i < |ids| ==> ids[i] < |t| && ParentOf(t, m, ids[i]) == par
    ensures InSubtree(t, m, x, ids[|ids| - 1]) ==> !UnderSome(t, m, x, ids[..|ids| - 1])
    ensures UnderSome(t, m, x, ids) <==> UnderSome(t, m, x, ids[..|ids| - 1]) || InSubtree(t, m, x, ids[|ids| - 1])
  {
    var n := |ids| - 1;
    var ids0 := ids[..n];
    forall i | 0 <= i < n ensures !(InSubtree(t, m, x, ids0[i]) && InSubtree(t, m, x, ids[n])) {
      assert ids0[i] == ids[i];
      if x in m.entries {
        KeysInArena(t, m);
        SiblingsDisjoint(t, m, x, ids[i], ids[n]);
      }
    }
    UnderSomeSnoc(t, m, ids, x);
  }

  /** `x` is under one of a non-empty list of ids when it is under one of all but the last
      or under the last. */
  lemma UnderSomeSnoc(t: seq<Node>, m: OrderedMap<nat, CodeSymbol>, ids: seq<nat>, x: nat)
    requires ValidTree(t) && TableOk(t, m) && ids != []
    ensures UnderSome(t, m, x, ids) <==> UnderSome(t, m, x, ids[..|ids| - 1]) || InSubtree(t, m, x, ids[|ids| - 1])
  {
    var n := |ids| - 1;
    var ids0 := ids[..n];
    if UnderSome(t, m, x, ids) {
      var i :| 0 <= i < |ids| && InSubtree(t, m, x, ids[i]);
      if i < n { assert ids0[i] == ids[i]; }
    }
    if UnderSome(t, m, x, ids0) {
      var i :| 0 <= i < n && InSubtree(t, m, x, ids0[i]);
      assert ids[i] == ids0[i];
    }
  }

  /** Two counts of at most one, for cases that cannot both hold, add up to the count of
      their disjunction. */
  lemma CountStep(a: nat, b: nat, p: bool, q: bool, r: bool)
    requires a == (if p then 1 else 0) && b == (if q then 1 else 0)
    requires q ==> !p
    requires r <==> p || q
    ensures a + b == if r then 1 else 0
  {
  }

  /** Concatenating the lists of pairwise disjoint siblings counts a node under one of
      them once. */
  lemma {:induction false} SiblingsCountAt(t: seq<Node>, m: OrderedMap<nat, CodeSymbol>, ids: seq<nat>,
                                           ss: seq<seq<nat>>, par: Option<nat>, x: nat)
    requires ValidTree(t) && TableOk(t, m)
    requires Distinct(ids) && |ss| == |ids|
    requires forall i :: 0 <= i < |ids| ==> ids[i] < |t| && ParentOf(t, m, ids[i]) == par
    requires forall i :: 0 <= i < |ids| ==>
               multiset(ss[i])[x] == if InSubtree(t, m, x, ids[i]) then 1 else 0
    ensures multiset(Concat(ss))[x] == if UnderSome(t, m, x, ids) then 1 else 0
  {
    if ids != [] {
      var n := |ids| - 1;
      var ids0 := ids[..n];
      var ss0 := ss[..n];
      SiblingsPrefix(t, m, ids, ss, par, x);
      SiblingsCountAt(t, m, ids0, ss0, par, x);
      LastSplit<seq<nat>>(ss);
      ConcatSnoc(ss0, ss[n]);
      assert multiset(Concat(ss))[x] == multiset(Concat(ss0))[x] + multiset(ss[n])[x];
      UnderOneSibling(t, m, ids, par, x);
      CountStep(multiset(Concat(ss0))[x], multiset(ss[n])[x],
                UnderSome(t, m, x, ids0), InSubtree(t, m, x, ids[n]), UnderSome(t, m, x, ids));
    }
  }

  /** The hypotheses of `SiblingsCountAt` carry over to all siblings but the last. */
  lemma SiblingsPrefix(t: seq<Node>, m: OrderedMap<nat, CodeSymbol>, ids: seq<nat>,
                       ss: seq<seq<nat>>, par: Option<nat>, x: nat)
    requires ValidTree(t) && TableOk(t, m)
    requires Distinct(ids) && |ss| == |ids| && ids != []
    requires forall i :: 0 <= i < |ids| ==> ids[i] < |t| && ParentOf(t, m, ids[i]) == par
    requires forall i :: 0 <= i < |ids| ==>
               multiset(ss[i])[x] == if InSubtree(t, m, x, ids[i]) then 1 else 0
    ensures var ids0, ss0 := ids[..|ids| - 1], ss[..|ids| - 1];
            && Distinct(ids0) && |ss0| == |ids0|
            && (forall i :: 0 <= i < |ids0| ==> ids0[i] < |t| && ParentOf(t, m, ids0[i]) == par)
            && (forall i :: 0 <= i < |ids0| ==>
                  multiset(ss0[i])[x] == if InSubtree(t, m, x, ids0[i]) then 1 else 0)
  {
    var n := |ids| - 1;
    var ids0, ss0 := ids[..n], ss[..n];
    forall i | 0 <= i < n ensures ids0[i] == ids[i] && ss0[i] == ss[i] { }
  }

  lemma SiblingsCount(t: seq<Node>, m: OrderedMap<nat, CodeSymbol>, ids: seq<nat>,
                      ss: seq<seq<nat>>, par: Option<nat>)
    requires ValidTree(t) && TableOk(t, m)
    requires Distinct(ids) && |ss| == |ids|
    requires forall i :: 0 <= i < |ids| ==> ids[i] < |t| && ParentOf(t, m, ids[i]) == par
    requires forall i, x :: 0 <= i < |ids| ==>
               multiset(ss[i])[x] == if InSubtree(t, m, x, ids[i]) then 1 else 0
    ensures forall x :: multiset(Concat(ss))[x] == if UnderSome(t, m, x, ids) then 1 else 0
  {
    forall x ensures multiset(Concat(ss))[x] == if UnderSome(t, m, x, ids) then 1 else 0 {
      SiblingsCountAt(t, m, ids, ss, par, x);
    }
  }

  /** A key is under `k` exactly when it is `k` or under one of the children of `k`, and
      `k` is under none of its children. */
  lemma SubtreeSplit(t: seq<Node>, m: OrderedMap<nat, CodeSymbol>, k: nat, x: nat)
    requires ValidTree(t) && TableOk(t, m) && k in m.entries
    ensures !UnderSome(t, m, k, ChildIds(t, m, m.keys, k))
    ensures InSubtree(t, m, x, k) <==> x == k || UnderSome(t, m, x, ChildIds(t, m, m.keys, k))
  {
    KeysInArena(t, m);
    KeysListed<nat, CodeSymbol>(m);
    ChildIdsMembers(t, m, m.keys, k);
    var ids := ChildIds(t, m, m.keys, k);
    forall i | 0 <= i < |ids| ensures !Under(t, m, k, ids[i]) {
      assert ids[i] in ids;
      UnderDepth(t, m, k, ids[i]);
    }
    if x in m.entries && x != k {
      UnderStep(t, m, x, k);
      if Under(t, m, x, k) {
        var c :| c in m.entries && ParentOf(t, m, c) == Some(k) && Under(t, m, x, c);
        assert c in ids;
        var i :| 0 <= i < |ids| && ids[i] == c;
        assert InSubtree(t, m, x, ids[i]);
      }
      if UnderSome(t, m, x, ids) {
        var i :| 0 <= i < |ids| && InSubtree(t, m, x, ids[i]);
        assert ids[i] in ids;
        assert Under(t, m, ids[i], k);
        UnderTrans(t, m, x, ids[i], k);
      }
    }
  }

  /** The ids under `k` in the tree built for it are the keys nesting under `k`, each
      once. */
  lemma {:induction false} PreOrderCount(t: seq<Node>, m: OrderedMap<nat, CodeSymbol>, k: nat)
    requires ValidTree(t) && TableOk(t, m) && k in m.entries
    requires KidsOk(t, m, ChildMap(t, m, m.keys))
    ensures forall x :: multiset(PreOrder(t, m, ChildMap(t, m, m.keys), k))[x]
                        == if InSubtree(t, m, x, k) then 1 else 0
    decreases MaxDepth(t) - t[k].depth
  {
    var kids := ChildMap(t, m, m.keys);
    KeysInArena(t, m);
    ChildIdsMembers(t, m, m.keys, k);
    var ids := ChildIds(t, m, m.keys, k);
    var ss := seq(|ids|, i requires 0 <= i < |ids| => PreOrder(t, m, kids, ids[i]));
    assert PreOrder(t, m, kids, k) == [k] + Concat(ss) by {
      if k !in kids {
        assert ids == [];
        assert ss == [];
      }
    }
    forall i | 0 <= i < |ids|
      ensures ids[i] < |t| && ParentOf(t, m, ids[i]) == Some(k)
      ensures forall x :: multiset(ss[i])[x] == if InSubtree(t, m, x, ids[i]) then 1 else 0
    {
      assert ids[i] in ids;
      PreOrderCount(t, m, ids[i]);
    }
    ChildIdsDistinct(t, m, m.keys, k);
    SiblingsCount(t, m, ids, ss, Some(k));
    forall x ensures multiset(PreOrder(t, m, kids, k))[x] == if InSubtree(t, m, x, k) then 1 else 0 {
      SubtreeSplit(t, m, k, x);
    }
  }

  /** The ids of the whole forest are the keys of the map, each once. */
  lemma ForestCount(t: seq<Node>, m: OrderedMap<nat, CodeSymbol>)
    requires ValidTree(t) && TableOk(t, m)
    ensures forall x :: multiset(ForestOrder(t, m))[x] == if x in m.entries then 1 else 0
  {
    ChildMapOk(t, m);
    KeysListed<nat, CodeSymbol>(m);
    var kids := ChildMap(t, m, m.keys);
    var roots := RootIds(t, m, m.keys);
    RootIdsMembers(t, m, m.keys);
    var ss := seq(|roots|, i requires 0 <= i < |roots| => assert roots[i] in roots; PreOrder(t, m, kids, roots[i]));
    assert ForestOrder(t, m) == Concat(ss);
    forall i | 0 <= i < |roots|
      ensures roots[i] < |t| && ParentOf(t, m, roots[i]).None?
      ensures forall x :: multiset(ss[i])[x] == if InSubtree(t, m, x, roots[i]) then 1 else 0
    {
      assert roots[i] in roots;
      PreOrderCount(t, m, roots[i]);
    }
    RootIdsDistinct(t, m, m.keys);
    SiblingsCount(t, m, roots, ss, None);
    RootsCover(t, m);
  }

  /** Every key is under one of the roots. */
  lemma RootsCover(t: seq<Node>, m: OrderedMap<nat, CodeSymbol>)
    requires ValidTree(t) && TableOk(t, m)
    ensures forall x :: UnderSome(t, m, x, RootIds(t, m, m.keys)) <==> x in m.entries
  {
    KeysListed<nat, CodeSymbol>(m);
    var roots := RootIds(t, m, m.keys);
    RootIdsMembers(t, m, m.keys);
    forall x ensures UnderSome(t, m, x, roots) <==> x in m.entries {
      if x in m.entries {
        UnderRoot(t, m, x);
        var r :| r in m.entries && ParentOf(t, m, r).None? && Under(t, m, x, r);
        assert r in roots;
        var i :| 0 <= i < |roots| && roots[i] == r;
        assert InSubtree(t, m, x, roots[i]);
      }
    }
  }

  // ---------------------------------------------------------------------------
  // From ids to symbols

  /** The symbols the map holds for the ids of `ids` that are keys, in order. */
  function Values(m: OrderedMap<nat, CodeSymbol>, ids: seq<nat>): seq<CodeSymbol> {
    if ids == [] then []
    else (if ids[0] in m.entries then [m.entries[ids[0]]] else []) + Values(m, ids[1..])
  }

  lemma {:induction false} ValuesAppend(m: OrderedMap<nat, CodeSymbol>, a: seq<nat>, b: seq<nat>)
    ensures Values(m, a + b) == Values(m, a) + Values(m, b)
  {
    if a != [] {
      assert (a + b)[0] == a[0];
      assert (a + b)[1..] == a[1..] + b;
      ValuesAppend(m, a[1..], b);
    } else {
      assert a + b == b;
    }
  }

  lemma {:induction false} ValuesLength(m: OrderedMap<nat, CodeSymbol>, ids: seq<nat>)
    requires forall i :: 0 <= i < |ids| ==> ids[i] in m.entries
    ensures |Values(m, ids)| == |ids|
  {
    if ids != [] {
      ValuesLength(m, ids[1..]);
    }
  }

  /** Lists that are permutations of each other give permuted symbols. */
  lemma {:induction false} ValuesPermutation(m: OrderedMap<nat, CodeSymbol>, p: seq<nat>, q: seq<nat>)
    requires multiset(p) == multiset(q)
    ensures multiset(Values(m, p)) == multiset(Values(m, q))
    decreases |p|
  {
    if p == [] {
      assert |q| == |multiset(q)| == 0;
    } else {
      var x := p[0];
      assert x in multiset(q);
      var j :| 0 <= j < |q| && q[j] == x;
      var q' := q[..j] + q[j + 1..];
      assert q == q[..j] + [x] + q[j + 1..];
      assert p == [x] + p[1..];
      assert multiset(p) == multiset{x} + multiset(p[1..]);
      assert multiset(q) == multiset(q[..j]) + multiset{x} + multiset(q[j + 1..]);
      assert multiset(q') == multiset(q[..j]) + multiset(q[j + 1..]);
      assert multiset(p[1..]) == multiset(p) - multiset{x};
      assert multiset(q') == multiset(q) - multiset{x};
      ValuesPermutation(m, p[1..], q');
      ValuesAppend(m, [x], p[1..]);
      ValuesAppend(m, q[..j] + [x], q[j + 1..]);
      ValuesAppend(m, q[..j], [x]);
      ValuesAppend(m, q[..j], q[j + 1..]);
    }
  }

  /** Flattening siblings gives the symbols of their concatenated ids. */
  lemma {:induction false} FlattenAllConcat(m: OrderedMap<nat, CodeSymbol>, xs: seq<CodeSymbol>, ss: seq<seq<nat>>)
    requires |xs| == |ss|
    requires forall i :: 0 <= i < |xs| ==> Flatten(xs[i]) == Values(m, ss[i])
    ensures FlattenAll(xs) == Values(m, Concat(ss))
  {
    if xs != [] {
      var n := |xs| - 1;
      var xs0, ss0 := xs[..n], ss[..n];
      forall i | 0 <= i < n ensures Flatten(xs0[i]) == Values(m, ss0[i]) {
        assert xs0[i] == xs[i] && ss0[i] == ss[i];
      }
      FlattenAllConcat(m, xs0, ss0);
      LastSplit<CodeSymbol>(xs);
      LastSplit<seq<nat>>(ss);
      FlattenAllAppend(xs0, [xs[n]]);
      FlattenAllSingle(xs[n]);
      ConcatSnoc(ss0, ss[n]);
      ValuesAppend(m, Concat(ss0), ss[n]);
    }
  }

  /** The flattened tree built for `k` is the map's symbols for its ids. */
  lemma {:induction false} BuildSymbolFlatten(t: seq<Node>, m: OrderedMap<nat, CodeSymbol>, k: nat)
    requires ValidTree(t) && TableOk(t, m) && k in m.entries
    requires KidsOk(t, m, ChildMap(t, m, m.keys))
    ensures Flatten(BuildSymbol(t, m, ChildMap(t, m, m.keys), k))
            == Values(m, PreOrder(t, m, ChildMap(t, m, m.keys), k))
    decreases MaxDepth(t) - t[k].depth
  {
    var kids := ChildMap(t, m, m.keys);
    var s := BuildSymbol(t, m, kids, k);
    assert Strip(s) == m.entries[k];
    ValuesAppend(m, [k], []);
    if k in kids {
      var ids := kids[k];
      var xs := seq(|ids|, i requires 0 <= i < |ids| => BuildSymbol(t, m, kids, ids[i]));
      var ss := seq(|ids|, i requires 0 <= i < |ids| => PreOrder(t, m, kids, ids[i]));
      forall i | 0 <= i < |ids| ensures Flatten(xs[i]) == Values(m, ss[i]) {
        BuildSymbolFlatten(t, m, ids[i]);
      }
      FlattenAllConcat(m, xs, ss);
      assert s.children == Children(xs);
      assert PreOrder(t, m, kids, k) == [k] + Concat(ss);
      ValuesAppend(m, [k], Concat(ss));
    }
  }

  /** Before sorting: the flattened forest lists the map's symbols in the order of
      `ForestOrder`, which holds every key of the map once and nothing else. */
  lemma ForestExactlyOnce(t: seq<Node>, m: OrderedMap<nat, CodeSymbol>)
    requires ValidTree(t) && TableOk(t, m)
    ensures FlattenAll(BuildForest(t, m)) == Values(m, ForestOrder(t, m))
    ensures forall x :: multiset(ForestOrder(t, m))[x] == if x in m.entries then 1 else 0
  {
    ChildMapOk(t, m);
    ForestCount(t, m);
    var kids := ChildMap(t, m, m.keys);
    var roots := RootIds(t, m, m.keys);
    RootIdsMembers(t, m, m.keys);
    forall i | 0 <= i < |roots| ensures roots[i] in m.entries {
      assert roots[i] in roots;
    }
    var xs := seq(|roots|, i requires 0 <= i < |roots| => BuildSymbol(t, m, kids, roots[i]));
    var ss := seq(|roots|, i requires 0 <= i < |roots| => PreOrder(t, m, kids, roots[i]));
    assert BuildForest(t, m) == xs;
    assert ForestOrder(t, m) == Concat(ss);
    forall i | 0 <= i < |roots| ensures Flatten(xs[i]) == Values(m, ss[i]) {
      BuildSymbolFlatten(t, m, roots[i]);
    }
    FlattenAllConcat(m, xs, ss);
  }

  // ---------------------------------------------------------------------------
  // The sort only permutes

  lemma {:induction false} InsertByLineFlatten(x: CodeSymbol, xs: seq<CodeSymbol>)
    ensures multiset(FlattenAll(InsertByLine(x, xs))) == multiset(Flatten(x)) + multiset(FlattenAll(xs))
  {
    var r := InsertByLine(x, xs);
    if xs == [] || x.line <= xs[0].line {
      assert r == [x] + xs;
      assert r[1..] == xs;
    } else {
      InsertByLineFlatten(x, xs[1..]);
      assert r == [xs[0]] + InsertByLine(x, xs[1..]);
      assert r[1..] == InsertByLine(x, xs[1..]);
    }
  }

  lemma {:induction false} SortByLineFlatten(xs: seq<CodeSymbol>)
    ensures multiset(FlattenAll(SortByLine(xs))) == multiset(FlattenAll(xs))
  {
    if xs != [] {
      SortByLineFlatten(xs[1..]);
      InsertByLineFlatten(xs[0], SortByLine(xs[1..]));
    }
  }

  lemma {:induction false} PointwiseFlatten(a: seq<CodeSymbol>, b: seq<CodeSymbol>)
    requires |a| == |b|
    requires forall i :: 0 <= i < |a| ==> multiset(Flatten(a[i])) == multiset(Flatten(b[i]))
    ensures multiset(FlattenAll(a)) == multiset(FlattenAll(b))
  {
    if a != [] {
      PointwiseFlatten(a[1..], b[1..]);
    }
  }

  lemma {:induction false} SortSymbolFlatten(s: CodeSymbol)
    ensures multiset(Flatten(SortSymbol(s))) == multiset(Flatten(s))
    decreases s, 0
  {
    assert Strip(SortSymbol(s)) == Strip(s);
    match s.children
    case NoChildren =>
    case Children(items) =>
      SortSymbolsFlatten(items);
  }

  lemma {:induction false} SortSymbolsFlatten(symbols: seq<CodeSymbol>)
    ensures multiset(FlattenAll(SortSymbolsByLine(symbols))) == multiset(FlattenAll(symbols))
    decreases symbols, 1
  {
    var sorted := SortByLine(symbols);
    var r := SortSymbolsByLine(symbols);
    forall i | 0 <= i < |r| ensures multiset(Flatten(r[i])) == multiset(Flatten(sorted[i])) {
      assert sorted[i] in multiset(symbols);
      var j :| 0 <= j < |symbols| && symbols[j] == sorted[i];
      SortSymbolFlatten(sorted[i]);
    }
    PointwiseFlatten(r, sorted);
    SortByLineFlatten(symbols);
  }

  /** The ids of the forest are a permutation of the map's keys. */
  lemma ForestOrderPermutesKeys(t: seq<Node>, m: OrderedMap<nat, CodeSymbol>)
    requires ValidTree(t) && TableOk(t, m)
    ensures multiset(ForestOrder(t, m)) == multiset(m.keys)
  {
    var order := ForestOrder(t, m);
    ForestCount(t, m);
    KeysListed<nat, CodeSymbol>(m);
    DistinctCounts(m.keys);
    forall x ensures multiset(order)[x] == multiset(m.keys)[x] {
      if x in m.keys {
        var i :| 0 <= i < |m.keys| && m.keys[i] == x;
        assert x in m.entries;
      }
    }
  }

  /** Building the forest of a symbol map and sorting it by line permutes the map's
      symbols: each appears exactly once. */
  lemma SortedForestPermutes(t: seq<Node>, m: OrderedMap<nat, CodeSymbol>)
    requires ValidTree(t) && TableOk(t, m)
    ensures multiset(FlattenAll(SortSymbolsByLine(BuildForest(t, m)))) == multiset(Values(m, m.keys))
  {
    var forest := BuildForest(t, m);
    var order := ForestOrder(t, m);
    ForestExactlyOnce(t, m);
    assert FlattenAll(forest) == Values(m, order);
    SortSymbolsFlatten(forest);
    ForestOrderPermutesKeys(t, m);
    ValuesPermutation(m, order, m.keys);
  }

  /** `extractSymbols` returns every symbol of the symbol map exactly once: flattened,
      its output is a permutation of the map's values, and it holds as many symbols as
      the map has keys. */
  lemma ExtractExactlyOnce(t: seq<Node>, source: string, prefixes: seq<string>, caps: seq<Capture>)
    requires ValidTree(t) && ValidCaptures(t, caps)
    ensures var m := SymbolTable(t, source, prefixes, caps);
            multiset(FlattenAll(Extract(t, source, prefixes, caps))) == multiset(Values(m, m.keys))
    ensures Size(Extract(t, source, prefixes, caps)) == |SymbolTable(t, source, prefixes, caps).keys|
  {
    var m := SymbolTable(t, source, prefixes, caps);
    var out := Extract(t, source, prefixes, caps);
    SortedForestPermutes(t, m);
    KeysListed<nat, CodeSymbol>(m);
    ValuesLength(m, m.keys);
    FlattenAllSize(out);
    assert |FlattenAll(out)| == |multiset(FlattenAll(out))|;
  }
}
