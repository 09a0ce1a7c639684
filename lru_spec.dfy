/**
 * The abstract contract of the fixed-capacity least-recently-used cache
 * (WmClient/LRUCache.cs): an ordered sequence of distinct keys, most recently
 * used first, together with a value map over exactly those keys.
 */
module LruSpec {
  import opened Wrappers

  /** DEFAULT_SIZE, used when a non-positive size is requested. */
  const DefaultSize: nat := 10000

  /** The capacity a cache created with `size` ends up with. */
  function Capacity(size: int): (n: nat)
    ensures n > 0
    ensures size > 0 ==> n == size
    ensures size <= 0 ==> n == DefaultSize
  {
    if size > 0 then size else DefaultSize
  }

  /** `keys[0]` is the most recently used key (the head), `keys[|keys| - 1]` the tail. */
  datatype Lru<K, V> = Lru(capacity: nat, keys: seq<K>, values: map<K, V>)

  /** No element occurs twice: the first is not among the rest, and the rest are distinct. */
  ghost predicate Distinct<T>(s: seq<T>) {
    |s| == 0 || (s[0] !in s[1..] && Distinct(s[1..]))
  }

  /** The well-formedness every reachable cache state has. */
  ghost predicate Wf<K, V>(c: Lru<K, V>) {
    && c.capacity > 0
    && Distinct(c.keys)
    && (forall k :: k in c.values ==> k in c.keys)
    && (forall k :: k in c.keys ==> k in c.values)
    && |c.values| == |c.keys|
    && |c.keys| <= c.capacity
  }

  /** `s` with every occurrence of `x` removed, the rest in their original order. */
  function Without<T(==)>(s: seq<T>, x: T): seq<T> {
    if s == [] then []
    else (if s[0] == x then [] else [s[0]]) + Without(s[1..], x)
  }

  /** The recency order after `k` is used: `k` first, every other key in its old relative order. */
  function Promote<K(==)>(keys: seq<K>, k: K): seq<K> {
    [k] + Without(keys, k)
  }

  function Empty<K, V>(capacity: nat): Lru<K, V> {
    Lru(capacity, [], map[])
  }

  /** GetEntry: the stored value, if any, and the state after the lookup. */
  function Get<K, V>(c: Lru<K, V>, k: K): (Option<V>, Lru<K, V>) {
    if k in c.values then (Some(c.values[k]), c.(keys := Promote(c.keys, k)))
    else (None, c)
  }

  /** PutEntry: update in place, or insert after evicting the tail when full. */
  function Put<K, V>(c: Lru<K, V>, k: K, v: V): Lru<K, V>
    requires Wf(c)
  {
    if k in c.values then
      c.(keys := Promote(c.keys, k), values := c.values[k := v])
    else if |c.values| == c.capacity then
      var last := c.keys[|c.keys| - 1];
      Lru(c.capacity, [k] + c.keys[..|c.keys| - 1], (c.values - {last})[k := v])
    else
      Lru(c.capacity, [k] + c.keys, c.values[k := v])
  }

  /** Clear: no entries, same capacity. */
  function Clear<K, V>(c: Lru<K, V>): Lru<K, V> {
    Empty(c.capacity)
  }

  /** Puts the pairs in order, as a caller looping over PutEntry does. */
  function PutAll<K, V>(c: Lru<K, V>, entries: seq<(K, V)>): (r: Lru<K, V>)
    requires Wf(c)
    ensures Wf(r) && r.capacity == c.capacity
    decreases |entries|
  {
    if entries == [] then c
    else
      PutPreservesWf(c, entries[0].0, entries[0].1);
      PutAll(Put(c, entries[0].0, entries[0].1), entries[1..])
  }

  // ---------------------------------------------------------------------
  // Facts about Distinct and Without

  /** Distinct, position by position. */
  lemma {:induction false} DistinctPairs<T>(s: seq<T>)
    ensures Distinct(s) <==> forall i, j :: 0 <= i < j < |s| ==> s[i] != s[j]
  {
    if s != [] {
      var t := s[1..];
      DistinctPairs(t);
      if Distinct(s) {
        forall i, j | 0 <= i < j < |s| ensures s[i] != s[j] {
          assert s[j] == t[j - 1];
          if i > 0 {
            assert s[i] == t[i - 1];
          }
        }
      }
      if forall i, j :: 0 <= i < j < |s| ==> s[i] != s[j] {
        forall k | 0 <= k < |t| ensures t[k] != s[0] {
          assert t[k] == s[k + 1];
        }
        forall i, j | 0 <= i < j < |t| ensures t[i] != t[j] {
          assert t[i] == s[i + 1] && t[j] == s[j + 1];
        }
      }
    }
  }

  /** A prefix of a distinct sequence is distinct. */
  lemma DistinctPrefix<T>(s: seq<T>, n: nat)
    requires Distinct(s) && n <= |s|
    ensures Distinct(s[..n])
  {
    DistinctPairs(s);
    DistinctPairs(s[..n]);
  }

  lemma {:induction false} WithoutMembers<T>(s: seq<T>, x: T)
    ensures forall y :: y in Without(s, x) ==> y in s && y != x
    ensures forall y :: y in s && y != x ==> y in Without(s, x)
  {
    if s != [] {
      WithoutMembers(s[1..], x);
      assert s == [s[0]] + s[1..];
    }
  }

  lemma {:induction false} WithoutDistinct<T>(s: seq<T>, x: T)
    requires Distinct(s)
    ensures Distinct(Without(s, x))
  {
    if s != [] {
      WithoutDistinct(s[1..], x);
      WithoutMembers(s[1..], x);
      var tail := Without(s[1..], x);
      if s[0] != x {
        assert Without(s, x) == [s[0]] + tail;
        ConsDistinct(s[0], tail);
      } else {
        assert Without(s, x) == tail;
      }
    }
  }

  lemma {:induction false} WithoutAbsent<T>(s: seq<T>, x: T)
    requires x !in s
    ensures Without(s, x) == s
  {
    if s != [] {
      WithoutAbsent(s[1..], x);
      assert s == [s[0]] + s[1..];
    }
  }

  /** In a sequence of distinct keys, removing `s[p]` is cutting position `p` out. */
  lemma {:induction false} WithoutAt<T>(s: seq<T>, p: nat)
    requires Distinct(s) && p < |s|
    ensures Without(s, s[p]) == s[..p] + s[p + 1..]
  {
    if p == 0 {
      assert s[0] !in s[1..];
      WithoutAbsent(s[1..], s[0]);
    } else {
      WithoutAt(s[1..], p - 1);
      assert s[1..][p - 1] == s[p];
      assert s[1..][..p - 1] + s[1..][p..] == s[1..p] + s[p + 1..];
      assert [s[0]] + s[1..p] == s[..p];
    }
  }

  lemma WithoutLength<T>(s: seq<T>, x: T)
    requires Distinct(s) && x in s
    ensures |Without(s, x)| == |s| - 1
  {
    var p :| 0 <= p < |s| && s[p] == x;
    WithoutAt(s, p);
  }

  lemma {:induction false} WithoutTwice<T>(s: seq<T>, x: T)
    ensures Without(Without(s, x), x) == Without(s, x)
  {
    WithoutMembers(s, x);
    WithoutAbsent(Without(s, x), x);
  }

  /** Promoting the head changes nothing. */
  lemma PromoteHead<T>(s: seq<T>)
    requires Distinct(s) && s != []
    ensures Promote(s, s[0]) == s
  {
    WithoutAt(s, 0);
  }

  lemma PromoteWf<K, V>(c: Lru<K, V>, k: K)
    requires Wf(c) && k in c.keys
    ensures Distinct(Promote(c.keys, k)) && |Promote(c.keys, k)| == |c.keys|
    ensures forall y :: y in Promote(c.keys, k) ==> y in c.keys
    ensures forall y :: y in c.keys ==> y in Promote(c.keys, k)
  {
    WithoutDistinct(c.keys, k);
    WithoutMembers(c.keys, k);
    WithoutLength(c.keys, k);
    ConsDistinct(k, Without(c.keys, k));
  }

  // ---------------------------------------------------------------------
  // Properties of the cache operations

  /** Every operation keeps the invariant; in particular the size never exceeds the capacity. */
  lemma PutPreservesWf<K, V>(c: Lru<K, V>, k: K, v: V)
    requires Wf(c)
    ensures Wf(Put(c, k, v))
  {
    if k in c.values {
      PromoteWf(c, k);
    } else if |c.values| == c.capacity {
      EvictWf(c, k, v);
    } else {
      InsertWf(c, k, v);
    }
  }

  lemma EvictWf<K, V>(c: Lru<K, V>, k: K, v: V)
    requires Wf(c) && k !in c.values && |c.values| == c.capacity
    ensures Wf(Put(c, k, v))
  {
    var n := |c.keys|;
    var last := c.keys[n - 1];
    var front := c.keys[..n - 1];
    var rest := c.values - {last};
    assert Put(c, k, v) == Lru(c.capacity, [k] + front, rest[k := v]);
    DistinctPrefix(c.keys, n - 1);
    assert k !in front by {
      assert forall i :: 0 <= i < |front| ==> front[i] == c.keys[i];
    }
    ConsDistinct(k, front);
    assert |rest| == n - 1 by {
      assert rest.Keys == c.values.Keys - {last};
    }
    DropLast(c.keys, c.values, front, rest);
  }

  /** Dropping the last key from the order and from the map keeps them over the same keys. */
  lemma DropLast<K, V>(keys: seq<K>, values: map<K, V>, front: seq<K>, rest: map<K, V>)
    requires Distinct(keys) && keys != []
    requires forall y :: y in values ==> y in keys
    requires forall y :: y in keys ==> y in values
    requires front == keys[..|keys| - 1] && rest == values - {keys[|keys| - 1]}
    ensures forall y :: y in front ==> y in rest
    ensures forall y :: y in rest ==> y in front
  {
    var n := |keys|;
    DistinctPairs(keys);
    forall y | y in front ensures y in rest {
      var i :| 0 <= i < |front| && front[i] == y;
      assert keys[i] == y && i != n - 1;
    }
    forall y | y in rest ensures y in front {
      var i :| 0 <= i < n && keys[i] == y;
      assert i != n - 1 && front[i] == y;
    }
  }

  lemma InsertWf<K, V>(c: Lru<K, V>, k: K, v: V)
    requires Wf(c) && k !in c.values && |c.values| < c.capacity
    ensures Wf(Put(c, k, v))
  {
    assert Put(c, k, v) == Lru(c.capacity, [k] + c.keys, c.values[k := v]);
    ConsDistinct(k, c.keys);
  }

  lemma ConsDistinct<T>(x: T, s: seq<T>)
    requires Distinct(s) && x !in s
    ensures Distinct([x] + s)
  {
    assert ([x] + s)[1..] == s;
  }

  lemma GetPreservesWf<K, V>(c: Lru<K, V>, k: K)
    requires Wf(c)
    ensures Wf(Get(c, k).1) && Get(c, k).1.capacity == c.capacity
  {
    if k in c.values {
      PromoteWf(c, k);
    }
  }

  lemma ClearPreservesWf<K, V>(c: Lru<K, V>)
    requires Wf(c)
    ensures Wf(Clear(c))
  {
  }

  /** A miss returns nothing and changes neither the entries nor the recency order. */
  lemma GetMiss<K, V>(c: Lru<K, V>, k: K)
    requires k !in c.values
    ensures Get(c, k) == (None, c)
  {
  }

  /**
   * A hit returns the stored value and makes `k` the most recently used key;
   * every other key keeps its relative order and no entry changes.
   */
  lemma GetHit<K, V>(c: Lru<K, V>, k: K)
    requires Wf(c) && k in c.values
    ensures Get(c, k).0 == Some(c.values[k])
    ensures Get(c, k).1.keys[0] == k
    ensures Without(Get(c, k).1.keys, k) == Without(c.keys, k)
    ensures Get(c, k).1.values == c.values
  {
    var r := Get(c, k).1;
    assert r.keys == [k] + Without(c.keys, k);
    WithoutTwice(c.keys, k);
    assert Without(r.keys, k) == Without(r.keys[1..], k) by {
      assert r.keys == [k] + r.keys[1..];
    }
  }

  /** Putting an existing key overwrites its value, keeps the size and promotes it. */
  lemma PutExisting<K, V>(c: Lru<K, V>, k: K, v: V)
    requires Wf(c) && k in c.values
    ensures Put(c, k, v).values == c.values[k := v]
    ensures |Put(c, k, v).values| == |c.values|
    ensures Put(c, k, v).keys == Promote(c.keys, k)
  {
  }

  /**
   * Putting a new key into a full cache removes exactly the least recently
   * used key and inserts the new one at the head.
   */
  lemma PutEvictsTail<K, V>(c: Lru<K, V>, k: K, v: V)
    requires Wf(c) && k !in c.values && |c.values| == c.capacity
    ensures var r := Put(c, k, v);
      && r.keys == [k] + c.keys[..|c.keys| - 1]
      && r.values.Keys == c.values.Keys - {c.keys[|c.keys| - 1]} + {k}
      && |r.values| == c.capacity
      && forall x :: x in c.values && x != c.keys[|c.keys| - 1] ==> x in r.values && r.values[x] == c.values[x]
  {
    PutPreservesWf(c, k, v);
  }

  /** Putting a new key into a cache with room adds it at the head and evicts nothing. */
  lemma PutInsertsAtHead<K, V>(c: Lru<K, V>, k: K, v: V)
    requires Wf(c) && k !in c.values && |c.values| < c.capacity
    ensures Put(c, k, v).keys == [k] + c.keys
    ensures Put(c, k, v).values == c.values[k := v]
    ensures |Put(c, k, v).values| == |c.values| + 1
  {
  }

  /** After any put, getting the key returns the value just put, and the cache is not empty. */
  lemma PutThenGet<K, V>(c: Lru<K, V>, k: K, v: V)
    requires Wf(c)
    ensures Get(Put(c, k, v), k).0 == Some(v)
    ensures Put(c, k, v).keys != [] && Put(c, k, v).keys[0] == k
    ensures |Put(c, k, v).values| <= c.capacity
  {
    PutPreservesWf(c, k, v);
  }

  /** The keys of the entries, the last one put first. */
  function NewestFirst<K, V>(entries: seq<(K, V)>): (ks: seq<K>)
    ensures |ks| == |entries|
    ensures forall i :: 0 <= i < |entries| ==> ks[|entries| - 1 - i] == entries[i].0
  {
    if entries == [] then [] else NewestFirst(entries[1..]) + [entries[0].0]
  }

  /** No key occurs in two entries. */
  predicate DistinctKeys<K(==), V>(entries: seq<(K, V)>) {
    forall i, j :: 0 <= i < j < |entries| ==> entries[i].0 != entries[j].0
  }

  /**
   * Putting new, distinct keys while there is room evicts nothing: the keys
   * go in front, the last one put first, and every entry keeps its value.
   */
  lemma {:induction false} PutAllFresh<K, V>(c: Lru<K, V>, entries: seq<(K, V)>)
    requires Wf(c) && DistinctKeys(entries)
    requires forall i :: 0 <= i < |entries| ==> entries[i].0 !in c.values
    requires |c.values| + |entries| <= c.capacity
    ensures PutAll(c, entries).keys == NewestFirst(entries) + c.keys
    ensures forall x :: x in c.values ==> x in PutAll(c, entries).values && PutAll(c, entries).values[x] == c.values[x]
    ensures forall i :: 0 <= i < |entries| ==>
      entries[i].0 in PutAll(c, entries).values && PutAll(c, entries).values[entries[i].0] == entries[i].1
    decreases |entries|
  {
    if entries != [] {
      var k, v := entries[0].0, entries[0].1;
      var c1 := Put(c, k, v);
      var rest := entries[1..];
      PutInsertsAtHead(c, k, v);
      PutPreservesWf(c, k, v);
      forall i | 0 <= i < |rest|
        ensures rest[i].0 !in c1.values
      {
        assert rest[i] == entries[i + 1];
      }
      forall i, j | 0 <= i < j < |rest|
        ensures rest[i].0 != rest[j].0
      {
        assert rest[i] == entries[i + 1] && rest[j] == entries[j + 1];
      }
      PutAllFresh(c1, rest);
      var r := PutAll(c1, rest);
      assert PutAll(c, entries) == r;
      forall x | x in c.values
        ensures x in r.values && r.values[x] == c.values[x]
      {
        assert x != k && x in c1.values && c1.values[x] == c.values[x];
      }
      forall i | 0 <= i < |entries|
        ensures entries[i].0 in r.values && r.values[entries[i].0] == entries[i].1
      {
        if i > 0 {
          assert entries[i] == rest[i - 1];
        }
      }
    }
  }

  /**
   * Filling a cache of capacity n with n distinct keys and putting one more
   * new key loses exactly the first key put: every other key keeps its
   * value, and the recency order is the new key, then the rest newest first.
   */
  lemma FillThenOverflow<K, V>(n: nat, entries: seq<(K, V)>, k: K, v: V)
    requires n > 0 && |entries| == n && DistinctKeys(entries)
    requires forall i :: 0 <= i < n ==> entries[i].0 != k
    ensures Wf(Empty<K, V>(n)) && Wf(PutAll(Empty<K, V>(n), entries))
    ensures var r := Put(PutAll(Empty<K, V>(n), entries), k, v);
      && r.keys == [k] + NewestFirst(entries[1..])
      && Get(r, entries[0].0).0 == None
      && Get(r, k).0 == Some(v)
      && forall i :: 1 <= i < n ==> Get(r, entries[i].0).0 == Some(entries[i].1)
  {
    var e := Empty<K, V>(n);
    PutAllFresh(e, entries);
    Overflow(PutAll(e, entries), entries, k, v);
  }

  /** The overflow step of FillThenOverflow, on a cache already filled with `entries`. */
  lemma Overflow<K, V>(full: Lru<K, V>, entries: seq<(K, V)>, k: K, v: V)
    requires Wf(full) && 0 < |entries| == full.capacity && full.keys == NewestFirst(entries) && DistinctKeys(entries)
    requires forall i :: 0 <= i < |entries| ==> entries[i].0 != k
    requires forall i :: 0 <= i < |entries| ==> entries[i].0 in full.values && full.values[entries[i].0] == entries[i].1
    ensures var r := Put(full, k, v);
      && r.keys == [k] + NewestFirst(entries[1..])
      && Get(r, entries[0].0).0 == None
      && Get(r, k).0 == Some(v)
      && forall i :: 1 <= i < |entries| ==> Get(r, entries[i].0).0 == Some(entries[i].1)
  {
    var n := |entries|;
    assert k !in full.keys by {
      forall j | 0 <= j < n
        ensures full.keys[j] != k
      {
        assert full.keys[j] == entries[n - 1 - j].0;
      }
    }
    PutEvictsTail(full, k, v);
    assert full.keys[..n - 1] == NewestFirst(entries[1..]);
    assert full.keys[n - 1] == entries[0].0;
    var r := Put(full, k, v);
    forall i | 1 <= i < n
      ensures Get(r, entries[i].0).0 == Some(entries[i].1)
    {
      var x := entries[i].0;
      assert x in full.values && x != entries[0].0;
      assert x in r.values && r.values[x] == full.values[x];
    }
  }

  /**
   * With capacity 5: putting the keys "0" to "4" and then "5" loses only "0",
   * the first key put.
   */
  lemma OverflowExample()
    ensures var entries := [("0", 0), ("1", 1), ("2", 2), ("3", 3), ("4", 4)];
      var r := Put(PutAll(Empty<string, int>(5), entries), "5", 5);
      && Get(r, "0").0 == None
      && Get(r, "1").0 == Some(1) && Get(r, "2").0 == Some(2) && Get(r, "3").0 == Some(3)
      && Get(r, "4").0 == Some(4) && Get(r, "5").0 == Some(5)
  {
    var entries: seq<(string, int)> := [("0", 0), ("1", 1), ("2", 2), ("3", 3), ("4", 4)];
    FillThenOverflow(5, entries, "5", 5);
    assert entries[1].0 == "1" && entries[2].0 == "2" && entries[3].0 == "3" && entries[4].0 == "4";
  }

  /** After a clear every key misses. */
  lemma ClearMisses<K, V>(c: Lru<K, V>, k: K)
    ensures Get(Clear(c), k).0 == None
    ensures |Clear(c).values| == 0 && Clear(c).keys == []
  {
  }

  /**
   * With capacity 2: put "a", put "b", get "a", put "c". The get made "a" the
   * most recently used entry, so "b" is the one evicted.
   */
  lemma RecencyExample()
    ensures var c2 := PutAll(Empty<string, int>(2), [("a", 1), ("b", 2)]);
      var c3 := Get(c2, "a").1;
      var c4 := Put(c3, "c", 3);
      && Get(c4, "b").0 == None
      && Get(c4, "a").0 == Some(1)
      && Get(c4, "c").0 == Some(3)
      && c4.keys == ["c", "a"]
  {
    RecencyFill();
    RecencyTouch();
    RecencyEvict();
  }

  lemma RecencyFill()
    ensures PutAll(Empty<string, int>(2), [("a", 1), ("b", 2)])
         == Lru(2, ["b", "a"], map["a" := 1, "b" := 2])
  {
    var c0 := Empty<string, int>(2);
    var c1 := Lru(2, ["a"], map["a" := 1]);
    var e := [("a", 1), ("b", 2)];
    assert Put(c0, "a", 1) == c1;
    assert |c1.values| == 1;
    assert Put(c1, "b", 2) == Lru(2, ["b", "a"], map["a" := 1, "b" := 2]);
    assert e[1..] == [("b", 2)];
  }

  lemma RecencyTouch()
    ensures Get(Lru(2, ["b", "a"], map["a" := 1, "b" := 2]), "a").1
         == Lru(2, ["a", "b"], map["a" := 1, "b" := 2])
  {
    assert Without(["b", "a"], "a") == ["b"] by {
      assert ["b", "a"][1..] == ["a"];
      assert Without(["a"], "a") == [];
    }
  }

  lemma RecencyEvict()
    ensures Wf(Lru(2, ["a", "b"], map["a" := 1, "b" := 2]))
    ensures Put(Lru(2, ["a", "b"], map["a" := 1, "b" := 2]), "c", 3)
         == Lru(2, ["c", "a"], map["a" := 1, "c" := 3])
  {
    var c3 := Lru(2, ["a", "b"], map["a" := 1, "b" := 2]);
    assert |c3.values| == 2 by {
      assert c3.values.Keys == {"a", "b"};
    }
    assert (c3.values - {"b"})["c" := 3] == map["a" := 1, "c" := 3];
  }

}
