// The bounded, recency-ordered map of the `lru` crate, which three components
// keep their memory in: the resolved-rule cache, the cgroup resolver and the
// netlink filter.  `order` lists the keys from most to least recently used.
module Lru {
  import opened Common

  datatype Cache<K(==), V> = Cache(capacity: nat, order: seq<K>, table: map<K, V>) {

    ghost predicate Valid() {
      && 1 <= capacity
      && NoDup(order)
      && Elems(order) == table.Keys
      && |order| <= capacity
    }

    // `LruCache::get` moves a key that is present to the most recent end.
    function Touch(k: K): Cache<K, V> {
      if k in table then this.(order := [k] + Without(order, k)) else this
    }

    function Lookup(k: K): Option<V> {
      if k in table then Some(table[k]) else None
    }

    // `LruCache::put` replaces in place, or evicts the least recent key when full.
    function Put(k: K, v: V): Cache<K, V> {
      if k in table then
        Cache(capacity, [k] + Without(order, k), table[k := v])
      else if |order| < capacity then
        Cache(capacity, [k] + order, table[k := v])
      else if order == [] then
        this
      else
        var last := order[|order| - 1];
        Cache(capacity, [k] + order[..|order| - 1], (table - {last})[k := v])
    }
  }

  function Empty<K(==), V>(capacity: nat): Cache<K, V> {
    Cache(if capacity == 0 then 1 else capacity, [], map[])
  }

  function Without<K(==)>(s: seq<K>, k: K): seq<K> {
    if s == [] then []
    else if s[0] == k then Without(s[1..], k)
    else [s[0]] + Without(s[1..], k)
  }

  lemma {:induction false} WithoutElems<K>(s: seq<K>, k: K)
    ensures Elems(Without(s, k)) == Elems(s) - {k}
    ensures NoDup(s) ==> NoDup(Without(s, k))
    ensures NoDup(s) && k in s ==> |Without(s, k)| + 1 == |s|
    ensures k !in s ==> Without(s, k) == s
  {
    if s != [] {
      WithoutElems(s[1..], k);
      assert Elems(s) == Elems(s[1..]) + {s[0]};
      var w := Without(s[1..], k);
      assert forall x :: x in w <==> x in Elems(w);
      if s[0] != k {
        assert Elems(Without(s, k)) == {s[0]} + Elems(w);
        if NoDup(s) {
          assert s[0] !in s[1..];
          assert s[0] !in Elems(s[1..]);
        }
        assert k in s ==> k in s[1..];
      } else {
        if NoDup(s) { assert k !in s[1..]; }
      }
    }
  }

  lemma ConsElems<K>(k: K, s: seq<K>)
    requires NoDup(s) && k !in Elems(s)
    ensures NoDup([k] + s) && Elems([k] + s) == {k} + Elems(s)
  {
    assert forall i :: 0 <= i < |s| ==> s[i] in Elems(s);
  }

  lemma InitElems<K>(s: seq<K>)
    requires NoDup(s) && s != []
    ensures NoDup(s[..|s| - 1]) && Elems(s[..|s| - 1]) == Elems(s) - {s[|s| - 1]}
  {
    var n := |s| - 1;
    assert s == s[..n] + [s[n]];
    assert s[n] !in s[..n];
  }

  // A read keeps the cache well formed and changes no entry, only the order.
  lemma TouchKeeps<K, V>(c: Cache<K, V>, k: K)
    requires c.Valid()
    ensures c.Touch(k).Valid()
    ensures c.Touch(k).table == c.table && c.Touch(k).capacity == c.capacity
  {
    if k in c.table {
      WithoutElems(c.order, k);
      assert k in Elems(c.order);
      ConsElems(k, Without(c.order, k));
    }
  }

  // A write keeps the cache well formed; afterwards the key holds the value, and
  // every other entry is one that was there before with the same value.  Below
  // capacity, or over an existing key, nothing else is lost.
  lemma PutKeeps<K, V>(c: Cache<K, V>, k: K, v: V)
    requires c.Valid()
    ensures c.Put(k, v).Valid() && c.Put(k, v).capacity == c.capacity
    ensures c.Put(k, v).Lookup(k) == Some(v)
    ensures forall x :: x in c.Put(k, v).table && x != k ==> x in c.table && c.Put(k, v).table[x] == c.table[x]
    ensures k in c.table || |c.order| < c.capacity ==> c.Put(k, v).table == c.table[k := v]
  {
    if k in c.table {
      WithoutElems(c.order, k);
      assert k in Elems(c.order);
      ConsElems(k, Without(c.order, k));
    } else if |c.order| < c.capacity {
      ConsElems(k, c.order);
    } else {
      InitElems(c.order);
      ConsElems(k, c.order[..|c.order| - 1]);
    }
  }
}
