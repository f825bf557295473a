/** A JavaScript `Map`: its entries, and its keys in the order they were first inserted,
    which is the order `entries()` and `values()` iterate in. */
module OrderedMaps {
  import opened Wrappers

  datatype OrderedMap<K(==), V> = OrderedMap(keys: seq<K>, entries: map<K, V>) {

    /** The keys are pairwise different and are exactly the keys of `entries`. */
    ghost predicate Valid() {
      && (forall i, j :: 0 <= i < j < |keys| ==> keys[i] != keys[j])
      && entries.Keys == set i | 0 <= i < |keys| :: keys[i]
    }

    /** `m.set(k, v)`: the value under `k` becomes `v`; a new key goes last, an existing key
        keeps its place. */
    function Set(k: K, v: V): (r: OrderedMap<K, V>)
      ensures Valid() ==> r.Valid()
      ensures r.entries == entries[k := v]
      ensures k in entries ==> r.keys == keys
      ensures k !in entries ==> r.keys == keys + [k]
    {
      if k in entries then OrderedMap(keys, entries[k := v])
      else
        var ks := keys + [k];
        var before := set i | 0 <= i < |keys| :: keys[i];
        var after := set i | 0 <= i < |ks| :: ks[i];
        assert after == before + {k} by {
          forall x | x in before ensures x in after {
            var i :| 0 <= i < |keys| && keys[i] == x;
            assert ks[i] == x;
          }
          assert ks[|keys|] == k;
        }
        OrderedMap(ks, entries[k := v])
    }
  }

  /** In a valid map, `keys` lists exactly the keys of `entries`. */
  lemma KeysListed<K, V>(m: OrderedMap<K, V>)
    requires m.Valid()
    ensures forall i :: 0 <= i < |m.keys| ==> m.keys[i] in m.entries
    ensures forall k :: k in m.entries ==> k in m.keys
  {
    var listed := set j | 0 <= j < |m.keys| :: m.keys[j];
    assert m.entries.Keys == listed;
    forall i | 0 <= i < |m.keys| ensures m.keys[i] in m.entries {
      assert m.keys[i] in listed;
    }
    forall k | k in m.entries ensures k in m.keys {
      assert k in listed;
      var j :| 0 <= j < |m.keys| && m.keys[j] == k;
    }
  }

  function Empty<K(==), V>(): (r: OrderedMap<K, V>)
    ensures r.Valid() && r.keys == [] && r.entries == map[]
  {
    OrderedMap([], map[])
  }

  /** The map after `set` has been called for each present pair of `xs`, in order. */
  function SetAll<K(==), V>(xs: seq<Option<(K, V)>>): (m: OrderedMap<K, V>)
    ensures m.Valid()
  {
    if xs == [] then Empty()
    else
      var m := SetAll(xs[..|xs| - 1]);
      var x := xs[|xs| - 1];
      if x.Some? then m.Set(x.value.0, x.value.1) else m
  }

  /** One more pair: its `set` call, if it is present. */
  lemma SetAllSnoc<K, V>(xs: seq<Option<(K, V)>>, i: nat)
    requires i < |xs|
    ensures SetAll(xs[..i + 1]) ==
            if xs[i].Some? then SetAll(xs[..i]).Set(xs[i].value.0, xs[i].value.1) else SetAll(xs[..i])
  {
    assert xs[..i + 1][..i] == xs[..i];
  }

  /** Pair `i` of `xs` is present and sets `k`. */
  predicate SetsKey<K(==), V>(xs: seq<Option<(K, V)>>, i: int, k: K) {
    0 <= i < |xs| && xs[i].Some? && xs[i].value.0 == k
  }

  /** A key is in the map exactly when some `set` call used it. */
  lemma {:induction false} SetAllKeys<K, V>(xs: seq<Option<(K, V)>>, k: K)
    ensures k in SetAll(xs).entries <==> exists i :: SetsKey(xs, i, k)
  {
    if xs != [] {
      var n := |xs| - 1;
      var init := xs[..n];
      SetAllKeys(init, k);
      if SetsKey(xs, n, k) {
        assert SetAll(xs) == SetAll(init).Set(k, xs[n].value.1);
      }
      if exists i :: SetsKey(init, i, k) {
        var i :| SetsKey(init, i, k);
        assert init[i] == xs[i];
        assert SetsKey(xs, i, k);
      }
      if exists i :: SetsKey(xs, i, k) {
        var i :| SetsKey(xs, i, k);
        if i < n {
          assert init[i] == xs[i];
          assert SetsKey(init, i, k);
        } else {
          assert SetAll(xs) == SetAll(init).Set(k, xs[n].value.1);
        }
      }
    }
  }

  /** The value under a key is the one its last `set` call gave. */
  lemma {:induction false} SetAllLastWins<K, V>(xs: seq<Option<(K, V)>>, i: int, k: K)
    requires SetsKey(xs, i, k)
    requires forall j :: i < j < |xs| ==> !SetsKey(xs, j, k)
    ensures k in SetAll(xs).entries && SetAll(xs).entries[k] == xs[i].value.1
  {
    var n := |xs| - 1;
    var init := xs[..n];
    if i < n {
      assert !SetsKey(xs, n, k);
      assert init[i] == xs[i];
      forall j | i < j < |init| ensures !SetsKey(init, j, k) {
        assert init[j] == xs[j];
        assert !SetsKey(xs, j, k);
      }
      SetAllLastWins(init, i, k);
    }
  }

  /** Every value in the map is the value of one of the `set` calls on its key. */
  lemma {:induction false} SetAllValues<K, V>(xs: seq<Option<(K, V)>>, k: K)
    requires k in SetAll(xs).entries
    ensures exists i :: SetsKey(xs, i, k) && SetAll(xs).entries[k] == xs[i].value.1
  {
    var n := |xs| - 1;
    var init := xs[..n];
    if SetsKey(xs, n, k) {
      assert SetAll(xs) == SetAll(init).Set(k, xs[n].value.1);
    } else {
      assert SetAll(xs).entries[k] == SetAll(init).entries[k];
      SetAllValues(init, k);
      var i :| SetsKey(init, i, k) && SetAll(init).entries[k] == init[i].value.1;
      assert init[i] == xs[i];
      assert SetsKey(xs, i, k);
    }
  }
}
