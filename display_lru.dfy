/**
 * The recency order of the display cache. The editor keeps its rendered
 * viewports in an insertion-ordered dictionary; the order of its keys is
 * modelled here as a sequence, oldest first.
 */
module DisplayLru {

  /** `cache_max_size`: the display cache holds at most this many viewports. */
  const CacheMaxSize: nat := 8

  ghost predicate Distinct<K>(s: seq<K>)
  {
    forall i, j :: 0 <= i < j < |s| ==> s[i] != s[j]
  }

  /** The order with k taken out (`pop(key)`). */
  function Without<K(==,!new)>(order: seq<K>, k: K): (r: seq<K>)
    ensures forall x :: x in r <==> x in order && x != k
    ensures Distinct(order) ==> Distinct(r)
    ensures Distinct(order) && k in order ==> |r| == |order| - 1
    ensures k !in order ==> r == order
  {
    if order == [] then []
    else
      var rest := Without(order[1..], k);
      if order[0] == k then rest
      else
        assert Distinct(order) ==> order[0] !in order[1..] by {
          if Distinct(order) {
            forall i | 0 <= i < |order[1..]| ensures order[1..][i] != order[0] {
              assert order[1..][i] == order[i + 1];
            }
          }
        }
        [order[0]] + rest
  }

  /** A cache hit: the entry is popped and re-inserted, so k becomes the most recent. */
  function Touch<K(==,!new)>(order: seq<K>, k: K): (r: seq<K>)
    requires k in order
    ensures |r| > 0 && r[|r| - 1] == k
    ensures forall x :: x in r <==> x in order
    ensures Distinct(order) ==> Distinct(r) && |r| == |order|
  {
    Without(order, k) + [k]
  }

  /**
   * `_cache_display_result` on the order: when the cache already holds
   * `CacheMaxSize` entries the oldest key is deleted; then assigning k appends
   * it if it is absent and leaves its place alone if it is present.
   */
  function Insert<K(==,!new)>(order: seq<K>, k: K): (r: seq<K>)
    requires Distinct(order)
    ensures Distinct(r)
    ensures k in r
    ensures |order| <= CacheMaxSize ==> |r| <= CacheMaxSize
    ensures forall x :: x in r <==> x == k || (x in order && !(|order| >= CacheMaxSize && x == order[0]))
    ensures k !in order && |order| < CacheMaxSize ==> r == order + [k]
    ensures k !in order && |order| >= CacheMaxSize ==> r == order[1..] + [k]
  {
    var kept := if |order| >= CacheMaxSize then order[1..] else order;
    assert forall x :: x in kept <==> x in order && !(|order| >= CacheMaxSize && x == order[0]);
    if k in kept then kept else kept + [k]
  }

  /** The order after one cache miss per key, in turn, starting from an empty cache. */
  function Misses<K(==,!new)>(keys: seq<K>): (r: seq<K>)
    requires Distinct(keys)
  {
    if keys == [] then [] else Insert(Misses(keys[..|keys| - 1]), keys[|keys| - 1])
  }

  function MinNat(a: nat, b: nat): nat { if a <= b then a else b }

  /** Distinct misses leave exactly the newest `CacheMaxSize` keys, oldest first. */
  lemma {:induction false} MissesKeepNewest<K(!new)>(keys: seq<K>)
    requires Distinct(keys)
    ensures Misses(keys) == keys[|keys| - MinNat(|keys|, CacheMaxSize)..]
  {
    if keys != [] {
      var n := |keys|;
      var p, last := keys[..n - 1], keys[n - 1];
      LastIsNew(keys);
      MissesKeepNewest(p);
      MissWindow(keys, Misses(p));
    }
  }

  /** One more distinct miss moves the window of newest keys on by that key. */
  lemma MissWindow<K(!new)>(keys: seq<K>, m: seq<K>)
    requires keys != [] && Distinct(keys)
    requires m == keys[..|keys| - 1][|keys| - 1 - MinNat(|keys| - 1, CacheMaxSize)..]
    ensures Distinct(m) && Insert(m, keys[|keys| - 1]) == keys[|keys| - MinNat(|keys|, CacheMaxSize)..]
  {
    if |keys| - 1 < CacheMaxSize {
      GrowWindow(keys, m);
    } else {
      SlideWindow(keys, m);
    }
  }

  /** While the cache is not full, a miss appends the key to the keys before it. */
  lemma GrowWindow<K(!new)>(keys: seq<K>, m: seq<K>)
    requires 0 < |keys| <= CacheMaxSize && Distinct(keys)
    requires m == keys[..|keys| - 1]
    ensures Distinct(m) && Insert(m, keys[|keys| - 1]) == keys[|keys| - MinNat(|keys|, CacheMaxSize)..]
  {
    LastIsNew(keys);
    assert m + [keys[|keys| - 1]] == keys;
  }

  /** The last of distinct keys is absent from the ones before it, which are distinct too. */
  lemma LastIsNew<K>(keys: seq<K>)
    requires Distinct(keys) && keys != []
    ensures Distinct(keys[..|keys| - 1])
    ensures keys[|keys| - 1] !in keys[..|keys| - 1]
  {
    var p := keys[..|keys| - 1];
    forall i, j | 0 <= i < j < |p| ensures p[i] != p[j] {
      assert p[i] == keys[i] && p[j] == keys[j];
    }
    forall i | 0 <= i < |p| ensures p[i] != keys[|keys| - 1] {
      assert p[i] == keys[i];
    }
  }

  /** A full window of the keys before the last one, shifted by one miss, is the window ending at the last key. */
  lemma SlideWindow<K(!new)>(keys: seq<K>, m: seq<K>)
    requires |keys| > CacheMaxSize && Distinct(keys)
    requires m == keys[|keys| - 1 - CacheMaxSize..|keys| - 1]
    ensures Distinct(m) && Insert(m, keys[|keys| - 1]) == keys[|keys| - MinNat(|keys|, CacheMaxSize)..]
  {
    var n := |keys|;
    var last := keys[n - 1];
    forall i, j | 0 <= i < j < |m| ensures m[i] != m[j] {
      assert m[i] == keys[n - 1 - CacheMaxSize + i] && m[j] == keys[n - 1 - CacheMaxSize + j];
    }
    forall i | 0 <= i < |m| ensures m[i] != last {
      assert m[i] == keys[n - 1 - CacheMaxSize + i];
    }
    assert m[1..] + [last] == keys[n - CacheMaxSize..];
  }

  /** After nine distinct misses the first key inserted has been evicted, and only it. */
  lemma NineMissesEvictFirst<K(!new)>(keys: seq<K>)
    requires |keys| == 9 && Distinct(keys)
    ensures keys[0] !in Misses(keys)
    ensures Misses(keys) == keys[1..]
  {
    MissesKeepNewest(keys);
  }

  /** The keys held in an order. */
  function Elements<K(==)>(s: seq<K>): set<K>
  {
    set x | x in s
  }

  /** A repetition-free order has as many keys as positions. */
  lemma {:induction false} DistinctCardinality<K(!new)>(s: seq<K>)
    requires Distinct(s)
    ensures |Elements(s)| == |s|
  {
    if s != [] {
      var t := s[1..];
      assert Distinct(t) by {
        forall i, j | 0 <= i < j < |t| ensures t[i] != t[j] {
          assert t[i] == s[i + 1] && t[j] == s[j + 1];
        }
      }
      DistinctCardinality(t);
      assert s[0] !in t by {
        forall i | 0 <= i < |t| ensures t[i] != s[0] {
          assert t[i] == s[i + 1];
        }
      }
      assert Elements(s) == Elements(t) + {s[0]};
    }
  }

  /**
   * `_cache_display_result` on the entries: when the cache already holds
   * `CacheMaxSize` entries the oldest one is deleted, then k is bound to v.
   */
  function StoreEntry<K(==,!new), V>(cache: map<K, V>, order: seq<K>, k: K, v: V): (r: map<K, V>)
    requires Distinct(order) && cache.Keys == Elements(order) && |order| <= CacheMaxSize
    ensures r.Keys == Elements(Insert(order, k))
    ensures k in r && r[k] == v
    ensures forall x :: x in r && x != k ==> x in cache && r[x] == cache[x]
    ensures |r| <= CacheMaxSize
  {
    DistinctCardinality(order);
    DistinctCardinality(Insert(order, k));
    InsertElements(order, k);
    var kept := if |cache| >= CacheMaxSize then cache - {order[0]} else cache;
    assert kept.Keys == (if |order| >= CacheMaxSize then Elements(order) - {order[0]} else Elements(order));
    kept[k := v]
  }

  /** The keys held after `Insert`: the oldest is gone from a full order, and k is present. */
  lemma InsertElements<K(!new)>(order: seq<K>, k: K)
    requires Distinct(order)
    ensures Elements(Insert(order, k)) ==
      (if |order| >= CacheMaxSize then Elements(order) - {order[0]} else Elements(order)) + {k}
  {
    var r := Insert(order, k);
    var e := (if |order| >= CacheMaxSize then Elements(order) - {order[0]} else Elements(order)) + {k};
    forall x ensures x in Elements(r) <==> x in e {
      assert x in Elements(r) <==> x in r;
      assert x in Elements(order) <==> x in order;
    }
  }

  /**
   * The two steps of `_cache_display_result`, as the editor performs them:
   * evicting the oldest entry of a full cache, then assigning the key, give
   * `Insert` on the order and `StoreEntry` on the entries.
   */
  lemma EvictThenAssign<K(!new), V>(cache: map<K, V>, order: seq<K>, k: K, v: V)
    requires Distinct(order) && cache.Keys == Elements(order) && |order| <= CacheMaxSize
    ensures |cache| == |order|
    ensures |cache| >= CacheMaxSize ==>
      && (if k in order[1..] then order[1..] else order[1..] + [k]) == Insert(order, k)
      && (cache - {order[0]})[k := v] == StoreEntry(cache, order, k, v)
    ensures |cache| < CacheMaxSize ==>
      && (if k in order then order else order + [k]) == Insert(order, k)
      && cache[k := v] == StoreEntry(cache, order, k, v)
  {
    DistinctCardinality(order);
  }
}
