/** The key order of a JavaScript `Map`: keys are listed in the order they were
    first set, `set` on a present key keeps its place, `delete` removes it. A
    `Map` keyed by strings (user ids here) is modelled as a Dafny `map` plus
    this key sequence. */
module InsertionOrder {
  import opened Seqs

  /** `ks` lists keys of `m`, each once, and as many as `m` has: exactly its
      keys (TracksKeys). */
  ghost predicate Tracks<V>(ks: seq<string>, m: map<string, V>) {
    && NoDup(ks)
    && |ks| == |m|
    && (forall i :: 0 <= i < |ks| ==> ks[i] in m)
  }

  /** A subset as large as its superset is the superset. */
  lemma SubsetOfSameSize<T>(a: set<T>, b: set<T>)
    requires a <= b && |a| == |b|
    ensures a == b
  {
    assert a + (b - a) == b;
    assert a * (b - a) == {};
  }

  /** A key is listed exactly when the map holds it. */
  lemma TracksHas<V>(ks: seq<string>, m: map<string, V>, k: string)
    requires Tracks(ks, m)
    ensures k in ks <==> k in m
  {
    TracksKeys(ks, m);
  }

  /** A tracking order lists every key of the map. */
  lemma TracksKeys<V>(ks: seq<string>, m: map<string, V>)
    requires Tracks(ks, m)
    ensures forall k :: k in m <==> k in ks
  {
    var listed := set x | x in ks;
    NoDupCardinality(ks);
    assert listed <= m.Keys;
    SubsetOfSameSize(listed, m.Keys);
  }

  /** Key order after `map.set(k, v)`. */
  function WithKey(ks: seq<string>, k: string): (r: seq<string>)
    ensures |r| >= |ks| && r[..|ks|] == ks
    ensures k in ks ==> r == ks
    ensures forall x :: x in r ==> x in ks || x == k
  {
    if k in ks then ks else ks + [k]
  }

  /** `set` adds its key if absent and keeps each key once. */
  lemma WithKeyKeys(ks: seq<string>, k: string)
    ensures forall x :: x in WithKey(ks, k) <==> x in ks || x == k
    ensures NoDup(ks) ==> NoDup(WithKey(ks, k))
  {
  }

  /** Key order after `map.delete(k)`. */
  function WithoutKey(ks: seq<string>, k: string): (r: seq<string>)
    ensures |r| <= |ks|
    ensures k !in ks ==> r == ks
    ensures forall x :: x in r ==> x in ks
  {
    if ks == [] then []
    else if ks[0] == k then WithoutKey(ks[1..], k)
    else [ks[0]] + WithoutKey(ks[1..], k)
  }

  /** `delete` removes exactly its key and leaves the others in order. */
  lemma {:induction false} WithoutKeyKeys(ks: seq<string>, k: string)
    ensures forall x :: x in WithoutKey(ks, k) <==> x in ks && x != k
    ensures NoDup(ks) ==> NoDup(WithoutKey(ks, k))
    ensures Subsequence(WithoutKey(ks, k), ks)
    ensures NoDup(ks) ==> |WithoutKey(ks, k)| == if k in ks then |ks| - 1 else |ks|
  {
    if ks != [] {
      WithoutKeyKeys(ks[1..], k);
      assert ks == [ks[0]] + ks[1..];
      if ks[0] == k {
        assert NoDup(ks) ==> k !in ks[1..];
      } else {
        var r := WithoutKey(ks, k);
        assert r[1..] == WithoutKey(ks[1..], k);
        assert NoDup(ks) ==> ks[0] !in ks[1..] && NoDup(ks[1..]);
      }
    }
  }

  /** Deleting the key set last, when it was set only once, restores the
      order from before it was set. */
  lemma {:induction false} WithoutAppendedKey(ks: seq<string>, k: string)
    requires k !in ks
    ensures WithoutKey(ks + [k], k) == ks
  {
    if ks != [] {
      WithoutAppendedKey(ks[1..], k);
      assert (ks + [k])[1..] == ks[1..] + [k];
    }
  }

  /** `Array.from(map.values())`: the values in key order. */
  function ValuesOf<V>(ks: seq<string>, m: map<string, V>): (r: seq<V>)
    requires forall k :: k in ks ==> k in m
    ensures |r| == |ks|
    ensures forall i {:trigger r[i]} :: 0 <= i < |ks| ==> r[i] == m[ks[i]]
  {
    if ks == [] then [] else [m[ks[0]]] + ValuesOf(ks[1..], m)
  }

  /** Setting a key that is not listed does not change the listed values. */
  lemma {:induction false} ValuesOfOtherKey<V>(ks: seq<string>, m: map<string, V>, k: string, v: V)
    requires forall x :: x in ks ==> x in m
    requires k !in ks
    ensures ValuesOf(ks, m[k := v]) == ValuesOf(ks, m)
  {
    if ks != [] {
      ValuesOfOtherKey(ks[1..], m, k, v);
    }
  }

  /** Setting a key and then tracking the new map keeps the order a tracking of it. */
  lemma TracksWithKey<V>(ks: seq<string>, m: map<string, V>, k: string, v: V)
    requires Tracks(ks, m)
    ensures Tracks(WithKey(ks, k), m[k := v])
  {
    WithKeyKeys(ks, k);
    TracksKeys(ks, m);
  }

  /** Deleting a key keeps the order a tracking of the smaller map. */
  lemma TracksWithoutKey<V>(ks: seq<string>, m: map<string, V>, k: string)
    requires Tracks(ks, m)
    ensures Tracks(WithoutKey(ks, k), m - {k})
  {
    WithoutKeyKeys(ks, k);
    TracksKeys(ks, m);
    var r := WithoutKey(ks, k);
    assert (m - {k}).Keys == m.Keys - {k};
    assert forall i :: 0 <= i < |r| ==> r[i] in r;
  }
}
