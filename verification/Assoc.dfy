/** Association vectors: a sequence of entries that behaves as a finite map. */
module Assoc {

  datatype Entry<K, V> = Entry(key: K, value: V)

  ghost predicate UniqueKeys<K, V>(entries: seq<Entry<K, V>>) {
    forall i, j | 0 <= i < j < |entries| :: entries[i].key != entries[j].key
  }

  /** The map a vector of entries stands for. */
  function ToMap<K, V>(entries: seq<Entry<K, V>>): map<K, V> {
    if entries == [] then map[]
    else
      var last := entries[|entries| - 1];
      ToMap(entries[..|entries| - 1])[last.key := last.value]
  }

  lemma AppendOne<K, V>(entries: seq<Entry<K, V>>, e: Entry<K, V>)
    ensures ToMap(entries + [e]) == ToMap(entries)[e.key := e.value]
  {
    assert (entries + [e])[..|entries|] == entries;
  }

  /** With unique keys the map holds exactly the entries of the vector. */
  lemma {:induction false} Exact<K(!new), V(!new)>(entries: seq<Entry<K, V>>)
    requires UniqueKeys(entries)
    ensures forall p, r :: Entry(p, r) in entries <==> p in ToMap(entries) && ToMap(entries)[p] == r
  {
    if entries == [] {
    } else {
      var front, last := entries[..|entries| - 1], entries[|entries| - 1];
      Exact(front);
      assert entries == front + [last];
      forall p, r
        ensures Entry(p, r) in entries <==> p in ToMap(entries) && ToMap(entries)[p] == r
      {
        assert Entry(p, r) in entries <==> Entry(p, r) in front || Entry(p, r) == last;
        assert forall i | 0 <= i < |front| :: entries[i].key != last.key;
      }
    }
  }

  lemma {:induction false} Overwrite<K, V>(entries: seq<Entry<K, V>>, i: nat, v: V)
    requires UniqueKeys(entries) && i < |entries|
    ensures var e := Entry(entries[i].key, v);
            UniqueKeys(entries[i := e])
            && ToMap(entries[i := e]) == ToMap(entries)[e.key := v]
  {
    var e := Entry(entries[i].key, v);
    var front, last := entries[..|entries| - 1], entries[|entries| - 1];
    var after := entries[i := e];
    assert forall k | 0 <= k < |entries| :: after[k].key == entries[k].key;
    if i == |front| {
      assert after[..|front|] == front;
    } else {
      Overwrite(front, i, v);
      assert after[..|front|] == front[i := e];
      assert e.key != last.key;
    }
  }

  /** The entries with another key, in their order. */
  function Without<K(==), V>(entries: seq<Entry<K, V>>, key: K): seq<Entry<K, V>> {
    if entries == [] then []
    else
      var last := entries[|entries| - 1];
      Without(entries[..|entries| - 1], key) + if last.key == key then [] else [last]
  }

  lemma WithoutOne<K, V>(entries: seq<Entry<K, V>>, e: Entry<K, V>, key: K)
    ensures Without(entries + [e], key) == Without(entries, key) + if e.key == key then [] else [e]
  {
    assert (entries + [e])[..|entries|] == entries;
  }

  lemma PutThenDrop<K, V>(m: map<K, V>, k: K, v: V, p: K)
    ensures m[k := v] - {p} == if k == p then m - {p} else (m - {p})[k := v]
  {
  }

  lemma {:induction false} WithoutDrops<K, V>(entries: seq<Entry<K, V>>, key: K)
    ensures ToMap(Without(entries, key)) == ToMap(entries) - {key}
  {
    if entries == [] {
    } else {
      var front, last := entries[..|entries| - 1], entries[|entries| - 1];
      WithoutDrops(front, key);
      PutThenDrop(ToMap(front), last.key, last.value, key);
      if last.key != key {
        AppendOne(Without(front, key), last);
      } else {
        assert Without(entries, key) == Without(front, key);
      }
    }
  }

  lemma {:induction false} WithoutUnique<K, V>(entries: seq<Entry<K, V>>, key: K)
    requires UniqueKeys(entries)
    ensures UniqueKeys(Without(entries, key))
    ensures forall e | e in Without(entries, key) :: e in entries
  {
    if entries == [] {
    } else {
      var front, last := entries[..|entries| - 1], entries[|entries| - 1];
      WithoutUnique(front, key);
      var kept := Without(front, key);
      forall i | 0 <= i < |kept| ensures kept[i].key != last.key {
        assert kept[i] in front;
      }
      assert entries == front + [last];
    }
  }

  /** The order of a vector does not matter: the same entries give the same map. */
  lemma SameEntries<K(!new), V(!new)>(a: seq<Entry<K, V>>, b: seq<Entry<K, V>>)
    requires UniqueKeys(a) && UniqueKeys(b) && forall e :: e in a <==> e in b
    ensures ToMap(a) == ToMap(b)
  {
    Exact(a);
    Exact(b);
    assert forall p | p in ToMap(a) :: Entry(p, ToMap(a)[p]) in b;
    assert forall p | p in ToMap(b) :: Entry(p, ToMap(b)[p]) in a;
  }
}
