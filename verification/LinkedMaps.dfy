/**
 Maps that remember the order in which their keys arrived, as absl::linked_hash_map does.
 A map is the list of its entries, oldest first, with no key twice.
 */
module LinkedMaps {
  import opened Collections

  datatype Entry<K, V> = Entry(key: K, value: V)

  predicate DistinctKeys<K(==), V>(entries: seq<Entry<K, V>>) {
    forall i, j :: 0 <= i < j < |entries| ==> entries[i].key != entries[j].key
  }

  /** The place of the first entry with this key, or the length if there is none. */
  function Place<K(==), V>(entries: seq<Entry<K, V>>, key: K): (k: nat)
    ensures k <= |entries| && (k < |entries| ==> entries[k].key == key)
    ensures forall i :: 0 <= i < k ==> entries[i].key != key
  {
    if entries == [] || entries[0].key == key then 0 else 1 + Place(entries[1..], key)
  }

  predicate HasKey<K(==), V>(entries: seq<Entry<K, V>>, key: K) {
    Place(entries, key) < |entries|
  }

  function Find<K(==), V>(entries: seq<Entry<K, V>>, key: K): Option<V> {
    if HasKey(entries, key) then Some(entries[Place(entries, key)].value) else None
  }

  /** `entries[key] = value`: overwrites in place, or appends. */
  function Assign<K(==), V>(entries: seq<Entry<K, V>>, key: K, value: V): seq<Entry<K, V>> {
    if HasKey(entries, key) then entries[Place(entries, key) := Entry(key, value)] else entries + [Entry(key, value)]
  }

  /** `entries.emplace(key, value)`: appends, unless the key is there already. */
  function Emplace<K(==), V>(entries: seq<Entry<K, V>>, key: K, value: V): seq<Entry<K, V>> {
    if HasKey(entries, key) then entries else entries + [Entry(key, value)]
  }

  /** `after` lists the keys of `before` in the same places, then `key` if it was missing. */
  predicate KeepsOrder<K(==), V>(before: seq<Entry<K, V>>, key: K, after: seq<Entry<K, V>>) {
    && |after| == (if HasKey(before, key) then |before| else |before| + 1)
    && (forall i :: 0 <= i < |before| ==> after[i].key == before[i].key)
    && (!HasKey(before, key) ==> after[|before|].key == key)
  }

  lemma PlaceUnique<K, V>(entries: seq<Entry<K, V>>, key: K, k: nat)
    requires k <= |entries| && (k < |entries| ==> entries[k].key == key)
    requires forall i :: 0 <= i < k ==> entries[i].key != key
    ensures Place(entries, key) == k
  {
  }

  lemma PlaceKept<K, V>(before: seq<Entry<K, V>>, key: K, after: seq<Entry<K, V>>, other: K)
    requires KeepsOrder(before, key, after)
    ensures Place(after, other) == if HasKey(before, other) || other == key then Place(before, other)
                                   else |after|
  {
    var k := Place(before, other);
    forall i | 0 <= i < k ensures after[i].key != other {
      assert after[i].key == before[i].key;
    }
    if k < |before| {
      assert after[k].key == before[k].key;
      PlaceUnique(after, other, k);
    } else if other == key {
      PlaceUnique(after, other, k);
    } else {
      PlaceUnique(after, other, |after|);
    }
  }

  /** Assigning updates the map at one key, and keeps the place of a key that was there. */
  lemma AssignMeans<K, V>(entries: seq<Entry<K, V>>, key: K, value: V, other: K)
    ensures KeepsOrder(entries, key, Assign(entries, key, value))
    ensures Find(Assign(entries, key, value), other) == if other == key then Some(value) else Find(entries, other)
  {
    PlaceKept(entries, key, Assign(entries, key, value), other);
  }

  /** Emplacing keeps the first value a key was given. */
  lemma EmplaceMeans<K, V>(entries: seq<Entry<K, V>>, key: K, value: V, other: K)
    ensures KeepsOrder(entries, key, Emplace(entries, key, value))
    ensures Find(Emplace(entries, key, value), other) ==
            if other == key && !HasKey(entries, key) then Some(value) else Find(entries, other)
  {
    PlaceKept(entries, key, Emplace(entries, key, value), other);
  }

  /** Adding an entry either way keeps the keys distinct. */
  lemma OrderKeepsDistinct<K, V>(before: seq<Entry<K, V>>, key: K, after: seq<Entry<K, V>>)
    requires DistinctKeys(before) && KeepsOrder(before, key, after)
    ensures DistinctKeys(after)
  {
    forall i, j | 0 <= i < j < |after| ensures after[i].key != after[j].key {
      assert after[i].key == before[i].key;
    }
  }
}
