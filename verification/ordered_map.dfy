/** A Python `dict`: a finite map that also remembers the order in which its
    keys were first inserted. Assigning to a key that is already present
    replaces its value and keeps its position; a new key goes to the end. */
module OrderedMaps {
  import opened Wrappers

  datatype OrderedMap<K(==), V> = OrderedMap(keys: seq<K>, entries: map<K, V>) {

    /** The insertion order lists every key of the map exactly once. */
    predicate Valid() {
      && (forall i, j :: 0 <= i < j < |keys| ==> keys[i] != keys[j])
      && entries.Keys == (set k | k in keys)
    }

    /** `d.get(k)`. */
    function Get(k: K): (r: Option<V>)
      ensures r.Some? <==> k in entries
      ensures r.Some? ==> r.value == entries[k]
    {
      if k in entries then Some(entries[k]) else None
    }

    /** `d[k] = v`: last write wins, and a key keeps the position of its first insertion. */
    function Put(k: K, v: V): (r: OrderedMap<K, V>)
      requires Valid()
      ensures r.Valid()
      ensures r.entries == entries[k := v]
      ensures k in entries ==> r.keys == keys
      ensures k !in entries ==> r.keys == keys + [k]
    {
      if k in entries then OrderedMap(keys, entries[k := v])
      else OrderedMap(keys + [k], entries[k := v])
    }

    /** `list(d.values())`: one value per key, in insertion order. */
    function Values(): (vs: seq<V>)
      requires Valid()
      ensures |vs| == |keys|
      ensures forall i :: 0 <= i < |keys| ==> vs[i] == entries[keys[i]]
    {
      seq(|keys|, i requires 0 <= i < |keys| && keys[i] in entries => entries[keys[i]])
    }
  }

  /** `{}`. */
  function Empty<K(==), V>(): (m: OrderedMap<K, V>)
    ensures m.Valid() && |m.keys| == 0 && m.entries == map[]
  {
    OrderedMap([], map[])
  }

  /** The set of elements of a sequence without repetitions has as many members as the sequence. */
  lemma {:induction false} DistinctCardinality<K>(ks: seq<K>)
    requires forall i, j :: 0 <= i < j < |ks| ==> ks[i] != ks[j]
    ensures |set k | k in ks| == |ks|
  {
    if |ks| > 0 {
      var last := ks[|ks| - 1];
      var init := ks[..|ks| - 1];
      DistinctCardinality(init);
      assert (set k | k in ks) == (set k | k in init) + {last};
      assert forall i :: 0 <= i < |init| ==> init[i] != last;
    }
  }

  /** `len(d)` counts the keys of the insertion order. */
  lemma SizeIsKeyCount<K, V>(m: OrderedMap<K, V>)
    requires m.Valid()
    ensures |m.entries| == |m.keys|
  {
    DistinctCardinality(m.keys);
    assert m.entries.Keys == set k | k in m.keys;
  }

  /** A fresh key grows the dictionary by one; an existing key leaves its size alone. */
  lemma PutSize<K, V>(m: OrderedMap<K, V>, k: K, v: V)
    requires m.Valid()
    ensures |m.Put(k, v).entries| == |m.entries| + (if k in m.entries then 0 else 1)
  {
    SizeIsKeyCount(m);
    SizeIsKeyCount(m.Put(k, v));
  }
}
