/** The abstract value of a PHP associative array: keys in insertion order, and what each holds. */
module OrderedMaps {

  /** `keys` lists every key once, in the order it was first assigned; `entries` gives its value. */
  datatype OrderedMap<K, V> = OrderedMap(keys: seq<K>, entries: map<K, V>)

  predicate Distinct<K(==)>(s: seq<K>) {
    forall i, j :: 0 <= i < j < |s| ==> s[i] != s[j]
  }

  /** Each key is listed exactly once and exactly the listed keys have a value. */
  ghost predicate WellFormed<K(!new), V>(m: OrderedMap<K, V>) {
    Distinct(m.keys) && forall k :: k in m.entries <==> k in m.keys
  }

  function Empty<K(!new), V>(): (m: OrderedMap<K, V>)
    ensures WellFormed(m)
    ensures forall k :: k !in m.entries
  {
    OrderedMap([], map[])
  }

  /** `$m[$k] = $v`: a present key keeps its position and gets the new value;
      a new key is appended. */
  function Put<K(!new), V>(m: OrderedMap<K, V>, k: K, v: V): (r: OrderedMap<K, V>)
    requires WellFormed(m)
    ensures WellFormed(r)
    ensures r.entries == m.entries[k := v]
    ensures k in m.entries ==> r.keys == m.keys
    ensures k !in m.entries ==> r.keys == m.keys + [k]
  {
    if k in m.entries then OrderedMap(m.keys, m.entries[k := v])
    else OrderedMap(m.keys + [k], m.entries[k := v])
  }

  /** The array built by assigning the pairs one after the other, starting from an empty one. */
  function FromPairs<K(!new), V>(ps: seq<(K, V)>): (r: OrderedMap<K, V>)
    ensures WellFormed(r)
  {
    if ps == [] then Empty()
    else Put(FromPairs(ps[..|ps| - 1]), ps[|ps| - 1].0, ps[|ps| - 1].1)
  }

  /** Assigning one more pair to the array built from `ps`. */
  lemma FromPairsAppend<K(!new), V>(ps: seq<(K, V)>, k: K, v: V)
    ensures FromPairs(ps + [(k, v)]) == Put(FromPairs(ps), k, v)
  {
  }

  /** Whether some pair among the first `n` has key `k`. */
  ghost predicate Yielded<K(!new), V>(ps: seq<(K, V)>, k: K, n: int) {
    exists i :: 0 <= i < n && i < |ps| && ps[i].0 == k
  }

  /** A key is yielded by a non-empty sequence of pairs when the shorter sequence
      yields it or the last pair has it. */
  lemma YieldedLast<K(!new), V>(ps: seq<(K, V)>, k: K)
    requires ps != []
    ensures Yielded(ps, k, |ps|) <==> Yielded(ps[..|ps| - 1], k, |ps| - 1) || ps[|ps| - 1].0 == k
  {
  }

  /** Exactly the yielded keys end up in the array. */
  lemma {:induction false} FromPairsKeys<K(!new), V>(ps: seq<(K, V)>, k: K)
    ensures k in FromPairs(ps).entries <==> Yielded(ps, k, |ps|)
  {
    if ps != [] {
      var n := |ps| - 1;
      FromPairsKeys(ps[..n], k);
      YieldedLast(ps, k);
      assert FromPairs(ps).entries == FromPairs(ps[..n]).entries[ps[n].0 := ps[n].1];
    }
  }

  /** Pair `j` is the last one yielded under key `k`. */
  ghost predicate LastYieldedAt<K(!new), V>(ps: seq<(K, V)>, k: K, j: int) {
    0 <= j < |ps| && ps[j].0 == k && forall i :: j < i < |ps| ==> ps[i].0 != k
  }

  /** Each key holds the value of the last pair yielded under it. */
  lemma {:induction false} FromPairsLastWins<K(!new), V>(ps: seq<(K, V)>, k: K)
    requires k in FromPairs(ps).entries
    ensures exists j :: LastYieldedAt(ps, k, j) && ps[j].1 == FromPairs(ps).entries[k]
  {
    var n := |ps| - 1;
    var init := ps[..n];
    var r, r' := FromPairs(ps), FromPairs(init);
    assert r == Put(r', ps[n].0, ps[n].1);
    if ps[n].0 == k {
      assert LastYieldedAt(ps, k, n) && ps[n].1 == r.entries[k];
    } else {
      assert k in r'.entries && r.entries[k] == r'.entries[k];
      FromPairsLastWins(init, k);
      var j :| LastYieldedAt(init, k, j) && init[j].1 == r'.entries[k];
      assert ps[j] == init[j];
      forall i | j < i < |ps| ensures ps[i].0 != k {
        if i < n {
          assert ps[i] == init[i];
        }
      }
      assert LastYieldedAt(ps, k, j);
    }
  }

  /** Keys are listed in the order they were first yielded: wherever the key listed at
      position `b` is yielded, the key listed at an earlier position `a` has already been
      yielded before it. */
  lemma {:induction false} FromPairsOrder<K(!new), V>(ps: seq<(K, V)>, a: int, b: int, j: int)
    requires 0 <= a < b < |FromPairs(ps).keys|
    requires 0 <= j < |ps| && ps[j].0 == FromPairs(ps).keys[b]
    ensures Yielded(ps, FromPairs(ps).keys[a], j)
  {
    var n := |ps| - 1;
    var init := ps[..n];
    var r, r' := FromPairs(ps), FromPairs(init);
    assert r == Put(r', ps[n].0, ps[n].1);
    assert ps[n].0 in r'.entries ==> r.keys == r'.keys;
    assert ps[n].0 !in r'.entries ==> r.keys == r'.keys + [ps[n].0];
    assert a < |r'.keys| && r.keys[a] == r'.keys[a];
    FromPairsKeys(init, r.keys[a]);
    var i: int;
    if j < n {
      assert init[j] == ps[j];
      FromPairsKeys(init, r.keys[b]);
      assert b < |r'.keys| && r.keys[b] == r'.keys[b];
      FromPairsOrder(init, a, b, j);
      i :| 0 <= i < j && i < n && init[i].0 == r.keys[a];
    } else {
      i :| 0 <= i < n && init[i].0 == r.keys[a];
    }
    assert ps[i] == init[i];
  }
}
