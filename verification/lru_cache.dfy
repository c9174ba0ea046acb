/**
 * The size-bounded cache `LRUCache` of LargeTrigramModel.java: a LinkedHashMap
 * in insertion order whose `removeEldestEntry` drops the eldest entry once the
 * size exceeds `maxSize`. Since the map is not access-ordered, a lookup never
 * reorders entries and eviction is first-in first-out.
 */
module LruCache {
  import opened Wrappers

  /** `order` lists the keys from eldest to newest; `entries` holds the mappings. */
  datatype Cache<K(==), V> = Cache(order: seq<K>, entries: map<K, V>, maxSize: int)

  /** The entries bound a LinkedHashMap keeps: each key once, in insertion order. */
  ghost predicate Valid<K(!new), V>(c: Cache<K, V>) {
    && (forall i, j :: 0 <= i < j < |c.order| ==> c.order[i] != c.order[j])
    && (forall k :: k in c.entries <==> k in c.order)
  }

  /** The number of entries the cache can hold after a put: `maxSize`, or none when it is negative. */
  function Capacity<K(!new), V>(c: Cache<K, V>): nat {
    if c.maxSize < 0 then 0 else c.maxSize
  }

  ghost predicate Bounded<K(!new), V>(c: Cache<K, V>) {
    |c.order| <= Capacity(c)
  }

  /** A new, empty cache, as `new LRUCache(maxSize)`. */
  function Empty<K(!new), V>(maxSize: int): (c: Cache<K, V>)
    ensures Valid(c) && Bounded(c)
    ensures c.entries == map[] && c.maxSize == maxSize
  {
    Cache([], map[], maxSize)
  }

  /** `get`: the stored value, or None; the cache itself is not changed by a lookup. */
  function Get<K(!new), V>(c: Cache<K, V>, k: K): (r: Option<V>)
    ensures r.Some? <==> k in c.entries
    ensures r.Some? ==> r.value == c.entries[k]
  {
    if k in c.entries then Some(c.entries[k]) else None
  }

  /**
   * `put`: replacing the value of a present key keeps its position and evicts
   * nothing; a new key is appended and, if the size now exceeds `maxSize`, the
   * eldest entry is removed (once).
   */
  function Put<K(!new), V>(c: Cache<K, V>, k: K, v: V): (r: Cache<K, V>)
    requires Valid(c)
    ensures Valid(r)
    ensures r.maxSize == c.maxSize
    ensures Bounded(c) ==> Bounded(r)
  {
    if k in c.entries then
      Cache(c.order, c.entries[k := v], c.maxSize)
    else
      var order := c.order + [k];
      var entries := c.entries[k := v];
      if |order| > c.maxSize then
        DropEldestMembers(order);
        Cache(order[1..], entries - {order[0]}, c.maxSize)
      else
        Cache(order, entries, c.maxSize)
  }

  /** In a list without repeats, the keys after the first are exactly the others. */
  lemma DropEldestMembers<K>(order: seq<K>)
    requires |order| > 0
    requires forall i, j :: 0 <= i < j < |order| ==> order[i] != order[j]
    ensures forall x :: x in order[1..] <==> x in order && x != order[0]
  {
    forall x | x in order && x != order[0] ensures x in order[1..] {
      var i :| 0 <= i < |order| && order[i] == x;
      assert order[1..][i - 1] == x;
    }
  }

  /** The key a put of the absent key `k` evicts, if any: always the eldest one. */
  lemma PutEvictsEldest<K(!new), V>(c: Cache<K, V>, k: K, v: V)
    requires Valid(c) && k !in c.entries
    ensures |c.order| + 1 > c.maxSize && c.order != [] ==> Put(c, k, v).order == c.order[1..] + [k]
    ensures |c.order| + 1 > c.maxSize && c.order == [] ==> Put(c, k, v).order == []
    ensures |c.order| + 1 <= c.maxSize ==> Put(c, k, v).order == c.order + [k]
  {
    var order := c.order + [k];
    if |order| > c.maxSize && c.order != [] {
      assert order[1..] == c.order[1..] + [k];
    }
  }

  /** After a put, the key maps to the new value unless the cache holds nothing at all. */
  lemma GetAfterPut<K(!new), V>(c: Cache<K, V>, k: K, v: V)
    requires Valid(c)
    ensures c.maxSize >= 1 ==> Get(Put(c, k, v), k) == Some(v)
    ensures c.maxSize <= 0 && k !in c.entries && c.order == [] ==> Get(Put(c, k, v), k) == None
  {
    if k !in c.entries {
      var order := c.order + [k];
      if |order| > c.maxSize && c.maxSize >= 1 {
        assert |c.order| >= 1;
        assert c.order[0] in c.entries;
        assert order[0] != k;
      }
    }
  }

  /**
   * A put changes no other key, except that the eldest key may be evicted:
   * any other key keeps its value or, if it was the eldest, disappears.
   */
  lemma PutKeepsOthers<K(!new), V>(c: Cache<K, V>, k: K, v: V, k': K)
    requires Valid(c) && k' != k
    ensures Get(Put(c, k, v), k') == Get(c, k')
         || (|c.order| > 0 && k' == c.order[0] && Get(Put(c, k, v), k') == None)
  {
  }

  /** Every mapping after a put is the new one or one the cache already held. */
  lemma PutEntries<K(!new), V>(c: Cache<K, V>, k: K, v: V)
    requires Valid(c)
    ensures forall k' :: k' in Put(c, k, v).entries ==>
      (k' == k && Put(c, k, v).entries[k'] == v) || (k' in c.entries && Put(c, k, v).entries[k'] == c.entries[k'])
  {
  }
}
