/** JavaScript's `Map`: keys kept in first-insertion order, one value per
    key, `set` on a present key replacing the value in place. */
module OrderedMaps {
  import opened Wrappers
  import Text

  datatype OMap<K, V> = OMap(keys: seq<K>, values: map<K, V>)

  ghost predicate Valid<K(!new), V>(m: OMap<K, V>)
  {
    (forall i, j :: 0 <= i < j < |m.keys| ==> m.keys[i] != m.keys[j]) &&
    (forall k :: k in m.values <==> k in m.keys)
  }

  function Empty<K(==, !new), V>(): (m: OMap<K, V>)
    ensures Valid(m) && m.keys == []
  {
    OMap([], map[])
  }

  /** `m.get(k)`. */
  function Get<K(==), V>(m: OMap<K, V>, k: K): (r: Option<V>)
    ensures r.Some? <==> k in m.values
    ensures r.Some? ==> r.value == m.values[k]
  {
    if k in m.values then Some(m.values[k]) else None
  }

  /** `m.set(k, v)`: a new key goes to the end; a present key keeps its place. */
  function Put<K(==, !new), V>(m: OMap<K, V>, k: K, v: V): (r: OMap<K, V>)
    requires Valid(m)
    ensures Valid(r)
    ensures r.keys == Text.AddToSet(m.keys, k)
    ensures r.values == m.values[k := v]
  {
    if k in m.keys then OMap(m.keys, m.values[k := v]) else OMap(m.keys + [k], m.values[k := v])
  }

  /** `Array.from(m.values())`. */
  function Values<K(==, !new), V>(m: OMap<K, V>): (r: seq<V>)
    requires Valid(m)
    ensures |r| == |m.keys|
    ensures forall i :: 0 <= i < |r| ==> r[i] == m.values[m.keys[i]]
  {
    seq(|m.keys|, i requires 0 <= i < |m.keys| => m.values[m.keys[i]])
  }

  /** The key of every entry, in order. */
  function KeysOf<K(==), V>(es: seq<(K, V)>): (r: seq<K>)
    ensures |r| == |es|
    ensures forall i :: 0 <= i < |es| ==> r[i] == es[i].0
  {
    if es == [] then [] else KeysOf(es[..|es| - 1]) + [es[|es| - 1].0]
  }

  /** `new Map(entries)`: every entry set in turn, so a later entry wins. */
  function FromEntries<K(==, !new), V>(es: seq<(K, V)>): (m: OMap<K, V>)
    ensures Valid(m)
  {
    if es == [] then Empty() else Put(FromEntries(es[..|es| - 1]), es[|es| - 1].0, es[|es| - 1].1)
  }

  /** The value of the last entry with key k. */
  function LastWith<K(==), V>(es: seq<(K, V)>, k: K): (r: Option<V>)
    ensures r.None? <==> k !in KeysOf(es)
  {
    if es == [] then None
    else if es[|es| - 1].0 == k then Some(es[|es| - 1].1)
    else LastWith(es[..|es| - 1], k)
  }

  /** The map built from a list of entries holds each key once, in order of
      first occurrence, with the value of the key's last entry. */
  lemma {:induction false} FromEntriesSpec<K(!new), V>(es: seq<(K, V)>)
    ensures FromEntries(es).keys == Text.Dedup(KeysOf(es))
    ensures forall k :: k in FromEntries(es).values <==> k in KeysOf(es)
    ensures forall k :: k in FromEntries(es).values ==> Some(FromEntries(es).values[k]) == LastWith(es, k)
  {
    if es != [] {
      var init := es[..|es| - 1];
      FromEntriesSpec(init);
      assert KeysOf(es) == KeysOf(init) + [es[|es| - 1].0];
      Text.DedupAppend(KeysOf(init), es[|es| - 1].0);
    }
  }

  /** Putting the entries one at a time into the map built from a prefix is
      building the map from the whole list. */
  lemma FromEntriesSnoc<K(!new), V>(es: seq<(K, V)>, k: K, v: V)
    ensures FromEntries(es + [(k, v)]) == Put(FromEntries(es), k, v)
  {
    assert (es + [(k, v)])[..|es|] == es;
  }

  /** The last entry for k in a + b is b's if b has one, else a's. */
  lemma {:induction false} LastWithAppend<K, V>(a: seq<(K, V)>, b: seq<(K, V)>, k: K)
    ensures LastWith(a + b, k) == if k in KeysOf(b) then LastWith(b, k) else LastWith(a, k)
    decreases |b|
  {
    if b == [] {
      assert a + b == a;
    } else {
      var b' := b[..|b| - 1];
      assert (a + b)[..|a + b| - 1] == a + b';
      assert (a + b)[|a + b| - 1] == b[|b| - 1];
      assert KeysOf(b) == KeysOf(b') + [b[|b| - 1].0];
      LastWithAppend(a, b', k);
    }
  }

  /** The last entry's value for k is the value of some entry for k. */
  lemma {:induction false} LastWithIn<K, V>(es: seq<(K, V)>, k: K)
    requires LastWith(es, k).Some?
    ensures (k, LastWith(es, k).value) in es
    decreases |es|
  {
    if es[|es| - 1].0 != k {
      LastWithIn(es[..|es| - 1], k);
      assert forall e :: e in es[..|es| - 1] ==> e in es;
    }
  }
}
