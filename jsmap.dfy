/**
 * A model of the JavaScript `Map` as the search screen uses it: built from
 * a list of `[key, value]` entries, read back with `values()`. A key keeps
 * the position of its first insertion; setting it again only replaces the
 * value.
 */
module JsMap {

  /** No element occurs twice. */
  predicate Distinct<T(==)>(s: seq<T>)
  {
    forall i, j :: 0 <= i < j < |s| ==> s[i] != s[j]
  }

  /** The keys in insertion order, and the value stored for each key. */
  datatype InsertionMap<K(==), V> = InsertionMap(keys: seq<K>, entries: map<K, V>)

  /** The order list holds each stored key exactly once. */
  ghost predicate Valid<K(!new), V>(m: InsertionMap<K, V>)
  {
    && Distinct(m.keys)
    && forall k :: k in m.entries <==> k in m.keys
  }

  /** `new Map()`. */
  function Empty<K(!new), V>(): (m: InsertionMap<K, V>)
    ensures Valid(m) && m.keys == [] && m.entries == map[]
  {
    InsertionMap([], map[])
  }

  /**
   * `map.set(k, v)`: the key now maps to `v`, every other key keeps its
   * value, a key already present keeps its position, and a new key is
   * placed last.
   */
  function Set<K(!new), V>(m: InsertionMap<K, V>, k: K, v: V): (r: InsertionMap<K, V>)
    requires Valid(m)
    ensures Valid(r)
    ensures k in r.entries && r.entries[k] == v
    ensures forall k' :: k' != k ==> (k' in r.entries <==> k' in m.entries)
    ensures forall k' :: k' != k && k' in m.entries ==> r.entries[k'] == m.entries[k']
    ensures k in m.entries ==> r.keys == m.keys
    ensures k !in m.entries ==> r.keys == m.keys + [k]
  {
    if k in m.entries then InsertionMap(m.keys, m.entries[k := v])
    else InsertionMap(m.keys + [k], m.entries[k := v])
  }

  /** `Array.from(map.values())`: one value per key, in key order. */
  function Values<K(!new), V>(m: InsertionMap<K, V>): (vs: seq<V>)
    requires Valid(m)
    ensures |vs| == |m.keys|
    ensures forall i :: 0 <= i < |m.keys| ==> vs[i] == m.entries[m.keys[i]]
  {
    seq(|m.keys|, i requires 0 <= i < |m.keys| => m.entries[m.keys[i]])
  }

  /** `new Map(entries)`: the entries are set one after the other, from the first to the last. */
  function FromEntries<K(!new), V>(es: seq<(K, V)>): (m: InsertionMap<K, V>)
    ensures Valid(m)
    decreases |es|
  {
    if es == [] then Empty()
    else Set(FromEntries(es[..|es| - 1]), es[|es| - 1].0, es[|es| - 1].1)
  }

  /** The keys of a list of entries, in order and with repetitions. */
  function KeysOf<K(!new), V>(es: seq<(K, V)>): (ks: seq<K>)
    ensures |ks| == |es|
    ensures forall i :: 0 <= i < |es| ==> ks[i] == es[i].0
  {
    seq(|es|, i requires 0 <= i < |es| => es[i].0)
  }

  /** The position of the first occurrence of `k`. */
  function FirstIndex<T(==)>(s: seq<T>, k: T): (r: nat)
    requires k in s
    ensures r < |s| && s[r] == k
    ensures forall j :: 0 <= j < r ==> s[j] != k
    decreases |s|
  {
    if k in s[..|s| - 1] then FirstIndex(s[..|s| - 1], k) else |s| - 1
  }

  /** The position of the last occurrence of `k`. */
  function LastIndex<T(==)>(s: seq<T>, k: T): (r: nat)
    requires k in s
    ensures r < |s| && s[r] == k
    ensures forall j :: r < j < |s| ==> s[j] != k
    decreases |s|
  {
    if s[|s| - 1] == k then |s| - 1 else LastIndex(s[..|s| - 1], k)
  }

  lemma KeysOfPrefix<K(!new), V>(es: seq<(K, V)>)
    requires es != []
    ensures KeysOf(es) == KeysOf(es[..|es| - 1]) + [es[|es| - 1].0]
  {
  }

  /** The map holds exactly the keys that occur among the entries. */
  lemma {:induction false} FromEntriesKeys<K(!new), V>(es: seq<(K, V)>)
    ensures forall k :: k in FromEntries(es).keys <==> k in KeysOf(es)
    decreases |es|
  {
    if es != [] {
      var init := es[..|es| - 1];
      FromEntriesKeys(init);
      KeysOfPrefix(es);
    }
  }

  /** The value stored for a key is the value of that key's last entry. */
  lemma {:induction false} FromEntriesLastWins<K(!new), V>(es: seq<(K, V)>)
    ensures forall k :: k in FromEntries(es).entries ==>
      k in KeysOf(es) && FromEntries(es).entries[k] == es[LastIndex(KeysOf(es), k)].1
    decreases |es|
  {
    FromEntriesKeys(es);
    if es != [] {
      var init, last := es[..|es| - 1], es[|es| - 1];
      FromEntriesLastWins(init);
      KeysOfPrefix(es);
      var ks := KeysOf(es);
      assert ks[..|es| - 1] == KeysOf(init);
      forall k | k in FromEntries(es).entries
        ensures FromEntries(es).entries[k] == es[LastIndex(ks, k)].1
      {
        if k != last.0 {
          assert LastIndex(ks, k) == LastIndex(KeysOf(init), k);
        }
      }
    }
  }

  /** A key that first occurs earlier among the entries stands earlier in the map. */
  lemma {:induction false} FromEntriesFirstOrder<K(!new), V>(es: seq<(K, V)>)
    ensures forall i, j :: 0 <= i < j < |FromEntries(es).keys| ==>
      && FromEntries(es).keys[i] in KeysOf(es)
      && FromEntries(es).keys[j] in KeysOf(es)
      && FirstIndex(KeysOf(es), FromEntries(es).keys[i]) < FirstIndex(KeysOf(es), FromEntries(es).keys[j])
    decreases |es|
  {
    FromEntriesKeys(es);
    if es != [] {
      var init, last := es[..|es| - 1], es[|es| - 1];
      FromEntriesFirstOrder(init);
      FromEntriesKeys(init);
      KeysOfPrefix(es);
      var ks, ks0 := KeysOf(es), KeysOf(init);
      var m, m0 := FromEntries(es), FromEntries(init);
      assert ks[..|es| - 1] == ks0;
      forall k | k in ks0 ensures FirstIndex(ks, k) == FirstIndex(ks0, k) {
      }
      forall i, j | 0 <= i < j < |m.keys|
        ensures FirstIndex(ks, m.keys[i]) < FirstIndex(ks, m.keys[j])
      {
        if j == |m0.keys| {
          assert m.keys[i] == m0.keys[i];
          assert last.0 !in ks0;
        } else {
          assert m.keys[i] == m0.keys[i] && m.keys[j] == m0.keys[j];
        }
      }
    }
  }

  /** The map never has more keys than there are entries, and has as many exactly when no key repeats. */
  lemma {:induction false} FromEntriesSize<K(!new), V>(es: seq<(K, V)>)
    ensures |FromEntries(es).keys| <= |es|
    ensures |FromEntries(es).keys| == |es| <==> Distinct(KeysOf(es))
    decreases |es|
  {
    if es != [] {
      var init, last := es[..|es| - 1], es[|es| - 1];
      FromEntriesSize(init);
      FromEntriesKeys(init);
      KeysOfPrefix(es);
      var ks, ks0 := KeysOf(es), KeysOf(init);
      if last.0 in ks0 {
        var p :| 0 <= p < |ks0| && ks0[p] == last.0;
        assert ks[p] == ks[|es| - 1];
      } else {
        assert Distinct(ks) <==> Distinct(ks0) by {
          if Distinct(ks0) {
            forall i, j | 0 <= i < j < |ks| ensures ks[i] != ks[j] {
              if j < |ks0| { assert ks[i] == ks0[i] && ks[j] == ks0[j]; }
              else { assert ks[i] in ks0; }
            }
          }
          if Distinct(ks) {
            forall i, j | 0 <= i < j < |ks0| ensures ks0[i] != ks0[j] {
              assert ks[i] == ks0[i] && ks[j] == ks0[j];
            }
          }
        }
      }
    }
  }
}
