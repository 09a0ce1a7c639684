/**
 * The node arena behind the linked list of WmClient/LRUCache.cs, and the
 * facts about it that the cache's methods rely on.
 *
 * A handle is a position in the arena and `Null` stands for a null
 * reference; writing a field of a node replaces its slot. Nodes are never
 * freed, just as an evicted C# node stays reachable from stale links.
 */
module LruLinks {
  import opened LruSpec

  const Null: int := -1

  datatype Node<K, V> = Node(key: K, value: V, next: int, previous: int)

  /** `hs` is a list in the arena: its first node has no predecessor and consecutive nodes link to each other both ways. */
  ghost predicate Chain<K, V>(arena: seq<Node<K, V>>, hs: seq<int>) {
    && (|hs| > 0 ==> 0 <= hs[0] < |arena| && arena[hs[0]].previous == Null)
    && Links(arena, hs)
  }

  /** Every node of `hs` is in the arena, and each one's successor in `hs` is its `next`, whose `previous` it is. */
  ghost predicate Links<K, V>(arena: seq<Node<K, V>>, hs: seq<int>) {
    |hs| == 0 ||
    (&& 0 <= hs[0] < |arena|
     && (|hs| > 1 ==> 0 <= hs[1] < |arena| && arena[hs[0]].next == hs[1] && arena[hs[1]].previous == hs[0])
     && Links(arena, hs[1..]))
  }

  /** `Chain`, link by link: the backward links are exact, and the forward links of every interior node. */
  ghost predicate ChainAt<K, V>(arena: seq<Node<K, V>>, hs: seq<int>) {
    && (forall i :: 0 <= i < |hs| ==> 0 <= hs[i] < |arena|)
    && (|hs| > 0 ==> arena[hs[0]].previous == Null)
    && (forall i :: 0 < i < |hs| ==> arena[hs[i]].previous == hs[i - 1])
    && (forall i :: 0 <= i < |hs| - 1 ==> arena[hs[i]].next == hs[i + 1])
  }

  lemma ChainPointwise<K, V>(arena: seq<Node<K, V>>, hs: seq<int>)
    ensures Chain(arena, hs) <==> ChainAt(arena, hs)
  {
    LinksPointwise(arena, hs);
  }

  lemma {:induction false} LinksPointwise<K, V>(arena: seq<Node<K, V>>, hs: seq<int>)
    ensures Links(arena, hs) <==>
      && (forall i :: 0 <= i < |hs| ==> 0 <= hs[i] < |arena|)
      && (forall i :: 0 < i < |hs| ==> arena[hs[i]].previous == hs[i - 1])
      && (forall i :: 0 <= i < |hs| - 1 ==> arena[hs[i]].next == hs[i + 1])
    decreases |hs|
  {
    if hs != [] {
      var t := hs[1..];
      LinksPointwise(arena, t);
      assert forall i :: 0 <= i < |t| ==> t[i] == hs[i + 1];
    }
  }

  /** `hs` holds the nodes of the keys of `order`, in the same order, and `index` finds them. */
  ghost predicate Keyed<K, V>(arena: seq<Node<K, V>>, index: map<K, int>, order: seq<K>, hs: seq<int>) {
    && |hs| == |order|
    && Distinct(order)
    && (forall i :: 0 <= i < |hs| ==> 0 <= hs[i] < |arena| && arena[hs[i]].key == order[i])
    && (forall i :: 0 <= i < |order| ==> order[i] in index && index[order[i]] == hs[i])
  }

  /** The two arenas agree on every node's key and value; only links may differ. */
  ghost predicate SameData<K, V>(a0: seq<Node<K, V>>, a1: seq<Node<K, V>>) {
    && |a0| == |a1|
    && forall h :: 0 <= h < |a0| ==> a1[h].key == a0[h].key && a1[h].value == a0[h].value
  }

  /** The list invariant of the cache over explicit state: what `LRUCache.Valid` states. */
  ghost predicate Linked<K, V>(arena: seq<Node<K, V>>, index: map<K, int>, order: seq<K>, hs: seq<int>,
                               head: int, tail: int, cacheSize: int) {
    && cacheSize > 0
    && Keyed(arena, index, order, hs)
    && Chain(arena, hs)
    && (forall k :: k in index ==> k in order)
    && |index| == |order| <= cacheSize
    && (|order| == 0 ==> head == Null && tail == Null)
    && (|order| > 0 ==> head == hs[0] && tail == hs[|hs| - 1])
    && (cacheSize >= 2 && |order| > 0 ==> arena[tail].next == Null)
  }

  /** The abstract cache a linked state stands for. */
  ghost function Abs<K, V>(arena: seq<Node<K, V>>, index: map<K, int>, order: seq<K>, cacheSize: nat): Lru<K, V>
    requires Bounded(arena, index)
  {
    Lru(cacheSize, order, Values(arena, index))
  }

  lemma LinkedAbs<K, V>(arena: seq<Node<K, V>>, index: map<K, int>, order: seq<K>, hs: seq<int>,
                        head: int, tail: int, cacheSize: int)
    requires Linked(arena, index, order, hs, head, tail, cacheSize)
    ensures Bounded(arena, index) && Wf(Abs(arena, index, order, cacheSize))
  {
    KeyedBounded(arena, index, order, hs);
  }

  /** Distinct keys give distinct nodes. */
  lemma KeyedHandles<K, V>(arena: seq<Node<K, V>>, index: map<K, int>, order: seq<K>, hs: seq<int>)
    requires Keyed(arena, index, order, hs)
    ensures Distinct(hs)
  {
    DistinctPairs(order);
    DistinctPairs(hs);
    forall i, j | 0 <= i < j < |hs| ensures hs[i] != hs[j] {
      assert arena[hs[i]].key == order[i] != order[j] == arena[hs[j]].key;
    }
  }

  /**
   * Moving the live node at position `p > 0` to the front: the links the
   * unlink and relink wrote, with every other link left alone, form the chain
   * of the rotated handle sequence.
   */
  lemma LinkLive<K, V>(a0: seq<Node<K, V>>, a1: seq<Node<K, V>>, h0: seq<int>, p: int)
    requires ChainAt(a0, h0) && 0 < p < |h0| && |a1| == |a0|
    requires p == |h0| - 1 ==> a0[h0[p]].next == Null
    requires a1[h0[p]].previous == Null && a1[h0[p]].next == h0[0]
    requires a1[h0[0]].previous == h0[p]
    requires a1[h0[p - 1]].next == a0[h0[p]].next
    requires p + 1 < |h0| ==> a1[h0[p + 1]].previous == h0[p - 1]
    requires forall i :: 0 < i < |h0| && i != p && i != p + 1 ==> a1[h0[i]].previous == a0[h0[i]].previous
    requires forall i :: 0 <= i < |h0| && i != p && i != p - 1 ==> a1[h0[i]].next == a0[h0[i]].next
    ensures ChainAt(a1, [h0[p]] + h0[..p] + h0[p + 1..])
  {
    var hs := [h0[p]] + h0[..p] + h0[p + 1..];
    assert |hs| == |h0|;
    assert forall i :: 1 <= i <= p ==> hs[i] == h0[i - 1];
    assert forall i :: p < i < |hs| ==> hs[i] == h0[i];
    forall i | 0 < i < |hs| ensures a1[hs[i]].previous == hs[i - 1] {
      if i == 1 {
      } else if i <= p {
        assert hs[i] == h0[i - 1] && hs[i - 1] == h0[i - 2];
      } else if i == p + 1 {
      } else {
        assert hs[i] == h0[i] && hs[i - 1] == h0[i - 1];
      }
    }
    forall i | 0 <= i < |hs| - 1 ensures a1[hs[i]].next == hs[i + 1] {
      if i == 0 {
      } else if i < p {
        assert hs[i] == h0[i - 1] && hs[i + 1] == h0[i];
      } else if i == p {
        assert hs[i] == h0[p - 1] && hs[i + 1] == h0[p + 1];
      } else {
        assert hs[i] == h0[i] && hs[i + 1] == h0[i + 1];
      }
    }
  }

  /** Linking a fresh node `e` in front of the chain `h0`. */
  lemma LinkFresh<K, V>(a0: seq<Node<K, V>>, a1: seq<Node<K, V>>, h0: seq<int>, e: int)
    requires ChainAt(a0, h0) && 0 <= e < |a1| && |a1| == |a0| && e !in h0
    requires a1[e].previous == Null
    requires h0 != [] ==> a1[e].next == h0[0] && a1[h0[0]].previous == e
    requires forall i :: 0 < i < |h0| ==> a1[h0[i]].previous == a0[h0[i]].previous
    requires forall i :: 0 <= i < |h0| ==> a1[h0[i]].next == a0[h0[i]].next
    ensures ChainAt(a1, [e] + h0)
  {
    var hs := [e] + h0;
    assert forall i :: 0 < i < |hs| ==> hs[i] == h0[i - 1];
  }

  lemma KeyedLive<K, V>(a0: seq<Node<K, V>>, a1: seq<Node<K, V>>, index: map<K, int>, o0: seq<K>, h0: seq<int>, p: int)
    requires Keyed(a0, index, o0, h0) && SameData(a0, a1) && 0 <= p < |o0|
    ensures Keyed(a1, index, [o0[p]] + o0[..p] + o0[p + 1..], [h0[p]] + h0[..p] + h0[p + 1..])
  {
    var o := [o0[p]] + o0[..p] + o0[p + 1..];
    var hs := [h0[p]] + h0[..p] + h0[p + 1..];
    WithoutAt(o0, p);
    WithoutDistinct(o0, o0[p]);
    WithoutMembers(o0, o0[p]);
    ConsDistinct(o0[p], Without(o0, o0[p]));
    assert o == [o0[p]] + Without(o0, o0[p]);
    forall i | 0 <= i < |o| ensures 0 <= hs[i] < |a1| && a1[hs[i]].key == o[i] && o[i] in index && index[o[i]] == hs[i] {
      if i == 0 {
      } else if i <= p {
        assert hs[i] == h0[i - 1] && o[i] == o0[i - 1];
      } else {
        assert hs[i] == h0[i] && o[i] == o0[i];
      }
    }
  }

  lemma KeyedFresh<K, V>(a0: seq<Node<K, V>>, a1: seq<Node<K, V>>, index: map<K, int>, o0: seq<K>, h0: seq<int>, e: int)
    requires Keyed(a0, index, o0, h0) && SameData(a0, a1) && 0 <= e < |a1|
    requires a1[e].key in index && index[a1[e].key] == e && a1[e].key !in o0
    ensures Keyed(a1, index, [a1[e].key] + o0, [e] + h0)
  {
    ConsDistinct(a1[e].key, o0);
    var o := [a1[e].key] + o0;
    var hs := [e] + h0;
    assert forall i :: 0 < i < |o| ==> o[i] == o0[i - 1] && hs[i] == h0[i - 1];
  }

  /**
   * The arena after MoveToHead's writes: `e` is unlinked from its neighbours
   * `nx` and `pv` and put in front of `hd`; nothing else changes.
   */
  ghost predicate Rewired<K, V>(a0: seq<Node<K, V>>, a1: seq<Node<K, V>>, e: int, nx: int, pv: int, hd: int)
    requires 0 <= e < |a0|
  {
    && |a1| == |a0|
    && forall h :: 0 <= h < |a0| ==>
         && a1[h].key == a0[h].key && a1[h].value == a0[h].value
         && a1[h].previous == (if h == e then Null else if h == hd then e else if h == nx then a0[e].previous else a0[h].previous)
         && a1[h].next == (if h == e then hd else if h == pv then a0[e].next else a0[h].next)
  }

  lemma MoveLive<K, V>(a0: seq<Node<K, V>>, a1: seq<Node<K, V>>, index: map<K, int>, o0: seq<K>, h0: seq<int>, p: int)
    requires Keyed(a0, index, o0, h0) && Chain(a0, h0) && 0 < p < |h0|
    requires p == |h0| - 1 ==> a0[h0[p]].next == Null
    requires Rewired(a0, a1, h0[p], a0[h0[p]].next, h0[p - 1], h0[0])
    ensures Keyed(a1, index, [o0[p]] + o0[..p] + o0[p + 1..], [h0[p]] + h0[..p] + h0[p + 1..])
    ensures Chain(a1, [h0[p]] + h0[..p] + h0[p + 1..])
    ensures p < |h0| - 1 ==> a1[h0[|h0| - 1]].next == a0[h0[|h0| - 1]].next
    ensures p == |h0| - 1 ==> a1[h0[p - 1]].next == Null
  {
    KeyedHandles(a0, index, o0, h0);
    KeyedLive(a0, a1, index, o0, h0, p);
    ChainPointwise(a0, h0);
    DistinctPairs(h0);
    LinkLive(a0, a1, h0, p);
    ChainPointwise(a1, [h0[p]] + h0[..p] + h0[p + 1..]);
  }

  lemma MoveFresh<K, V>(a0: seq<Node<K, V>>, a1: seq<Node<K, V>>, index: map<K, int>, o0: seq<K>, h0: seq<int>, e: int, hd: int)
    requires Keyed(a0, index, o0, h0) && Chain(a0, h0) && 0 <= e < |a0|
    requires a0[e].key in index && index[a0[e].key] == e && a0[e].key !in o0
    requires a0[e].next == Null && a0[e].previous == Null
    requires o0 != [] ==> hd == h0[0]
    requires hd != e
    requires Rewired(a0, a1, e, Null, Null, hd)
    ensures Keyed(a1, index, [a0[e].key] + o0, [e] + h0)
    ensures Chain(a1, [e] + h0)
    ensures o0 != [] ==> a1[h0[|h0| - 1]].next == a0[h0[|h0| - 1]].next
    ensures a1[e].next == hd
  {
    assert e !in h0 by {
      forall i | 0 <= i < |h0| ensures h0[i] != e {
        assert a0[h0[i]].key == o0[i];
      }
    }
    KeyedFresh(a0, a1, index, o0, h0, e);
    ChainPointwise(a0, h0);
    LinkFresh(a0, a1, h0, e);
    ChainPointwise(a1, [e] + h0);
  }

  /** Where the neighbours of `entry` and the head can be, before MoveToHead writes to them. */
  lemma Neighbours<K, V>(a0: seq<Node<K, V>>, index: map<K, int>, o0: seq<K>, h0: seq<int>, e: int, hd: int, cacheSize: int)
    requires Keyed(a0, index, o0, h0) && Chain(a0, h0)
    requires 0 <= e < |a0| && a0[e].key in index && index[a0[e].key] == e
    requires |o0| <= cacheSize
    requires o0 != [] ==> hd == h0[0]
    requires o0 == [] ==> hd == Null || 0 <= hd < |a0|
    requires hd != e
    requires cacheSize >= 2 && o0 != [] ==> a0[h0[|h0| - 1]].next == Null
    requires a0[e].key !in o0 ==> a0[e].next == Null && a0[e].previous == Null
    ensures hd == Null || 0 <= hd < |a0|
    ensures a0[e].next == Null || (0 <= a0[e].next < |a0| && a0[e].next != e && a0[e].next != hd)
    ensures a0[e].previous == Null || (0 <= a0[e].previous < |a0| && a0[e].previous != e)
  {
    var k := a0[e].key;
    if k in o0 {
      KeyedHandles(a0, index, o0, h0);
      DistinctPairs(h0);
      ChainPointwise(a0, h0);
      var p :| 0 <= p < |o0| && o0[p] == k;
      assert h0[p] == e;
      assert p > 0 && a0[e].previous == h0[p - 1];
      if p + 1 < |h0| {
        assert a0[e].next == h0[p + 1];
      } else {
        assert a0[e].next == Null;
      }
    }
  }

  /**
   * After MoveToHead's writes the live keys, `entry`'s first, are linked in
   * the order `Promote` gives; `hs` are their nodes.
   */
  lemma Moved<K, V>(a0: seq<Node<K, V>>, a1: seq<Node<K, V>>, index: map<K, int>, o0: seq<K>, h0: seq<int>, e: int, hd: int, cacheSize: int)
      returns (hs: seq<int>)
    requires Keyed(a0, index, o0, h0) && Chain(a0, h0)
    requires 0 <= e < |a0| && a0[e].key in index && index[a0[e].key] == e
    requires |o0| <= cacheSize
    requires o0 != [] ==> hd == h0[0]
    requires hd != e
    requires cacheSize >= 2 && o0 != [] ==> a0[h0[|h0| - 1]].next == Null
    requires a0[e].key !in o0 ==> a0[e].next == Null && a0[e].previous == Null
    requires Rewired(a0, a1, e, a0[e].next, a0[e].previous, hd)
    ensures Keyed(a1, index, Promote(o0, a0[e].key), hs) && Chain(a1, hs)
    ensures hs != [] && hs[0] == e && SameData(a0, a1)
    ensures o0 == [] ==> hs == [e] && a1[e].next == hd
    ensures o0 != [] && h0[|h0| - 1] != e ==> hs[|hs| - 1] == h0[|h0| - 1] && a1[hs[|hs| - 1]].next == a0[h0[|h0| - 1]].next
    ensures o0 != [] && h0[|h0| - 1] == e ==> hs[|hs| - 1] == a0[e].previous && a1[hs[|hs| - 1]].next == Null
  {
    var k := a0[e].key;
    if k in o0 {
      KeyedHandles(a0, index, o0, h0);
      ChainPointwise(a0, h0);
      var p :| 0 <= p < |o0| && o0[p] == k;
      assert h0[p] == e;
      assert p > 0;
      MoveLive(a0, a1, index, o0, h0, p);
      WithoutAt(o0, p);
      assert Promote(o0, k) == [o0[p]] + o0[..p] + o0[p + 1..];
      hs := [e] + h0[..p] + h0[p + 1..];
    } else {
      MoveFresh(a0, a1, index, o0, h0, e, hd);
      WithoutAbsent(o0, k);
      hs := [e] + h0;
    }
  }

  /** Every key of `index` names a node of the arena. */
  ghost predicate Bounded<K, V>(arena: seq<Node<K, V>>, index: map<K, int>) {
    forall k :: k in index ==> 0 <= index[k] < |arena|
  }

  /** The value stored for each key. */
  ghost function Values<K, V>(arena: seq<Node<K, V>>, index: map<K, int>): (m: map<K, V>)
    requires Bounded(arena, index)
    ensures m.Keys == index.Keys
    ensures forall k :: k in m ==> m[k] == arena[index[k]].value
  {
    map k | k in index :: arena[index[k]].value
  }

  lemma KeyedBounded<K, V>(arena: seq<Node<K, V>>, index: map<K, int>, order: seq<K>, hs: seq<int>)
    requires Keyed(arena, index, order, hs) && (forall k :: k in index ==> k in order)
    ensures Bounded(arena, index)
  {
    forall k | k in index ensures 0 <= index[k] < |arena| {
      var i :| 0 <= i < |order| && order[i] == k;
    }
  }

  /** Different live keys have different nodes. */
  lemma KeyedInjective<K, V>(arena: seq<Node<K, V>>, index: map<K, int>, order: seq<K>, hs: seq<int>)
    requires Keyed(arena, index, order, hs) && (forall k :: k in index ==> k in order)
    ensures forall k1, k2 :: k1 in index && k2 in index && k1 != k2 ==> index[k1] != index[k2]
  {
    forall k1, k2 | k1 in index && k2 in index && k1 != k2 ensures index[k1] != index[k2] {
      var i :| 0 <= i < |order| && order[i] == k1;
      var j :| 0 <= j < |order| && order[j] == k2;
    }
  }

  lemma ValuesSameData<K, V>(a0: seq<Node<K, V>>, a1: seq<Node<K, V>>, index: map<K, int>)
    requires Bounded(a0, index) && SameData(a0, a1)
    ensures Bounded(a1, index) && Values(a1, index) == Values(a0, index)
  {
  }

  /** Appending a node to the arena disturbs nothing already linked. */
  lemma Appended<K, V>(a0: seq<Node<K, V>>, a1: seq<Node<K, V>>, index: map<K, int>, order: seq<K>, hs: seq<int>)
    requires Keyed(a0, index, order, hs) && Chain(a0, hs) && Bounded(a0, index)
    requires |a1| == |a0| + 1 && a1[..|a0|] == a0
    ensures Keyed(a1, index, order, hs) && Chain(a1, hs) && Bounded(a1, index)
    ensures Values(a1, index) == Values(a0, index)
    ensures forall h :: 0 <= h < |a0| ==> a1[h] == a0[h]
    ensures forall k :: k in index ==> index[k] < |a0|
  {
    forall h | 0 <= h < |a0| ensures a1[h] == a0[h] {
      assert a1[h] == a1[..|a0|][h];
    }
    ChainPointwise(a0, hs);
    ChainPointwise(a1, hs);
  }

  /**
   * Evicting the tail: its key leaves the index, the previous node becomes
   * the tail and its forward link is cleared.
   */
  lemma Evicted<K, V>(a1: seq<Node<K, V>>, a2: seq<Node<K, V>>, i1: map<K, int>, o1: seq<K>, h1: seq<int>)
    requires Keyed(a1, i1, o1, h1) && Chain(a1, h1) && Bounded(a1, i1) && |o1| > 0
    requires a2 == if |h1| > 1 then a1[h1[|h1| - 2] := a1[h1[|h1| - 2]].(next := Null)] else a1
    ensures var n := |o1|;
      && a1[h1[n - 1]].key == o1[n - 1]
      && a1[h1[n - 1]].previous == (if n > 1 then h1[n - 2] else Null)
      && SameData(a1, a2)
      && Keyed(a2, i1 - {o1[n - 1]}, o1[..n - 1], h1[..n - 1]) && Chain(a2, h1[..n - 1])
      && Bounded(a2, i1 - {o1[n - 1]})
      && Values(a2, i1 - {o1[n - 1]}) == Values(a1, i1) - {o1[n - 1]}
      && (n > 1 ==> a2[h1[n - 2]].next == Null)
  {
    var n := |o1|;
    var o2 := o1[..n - 1];
    var h2 := h1[..n - 1];
    var i2 := i1 - {o1[n - 1]};
    assert SameData(a1, a2);
    ChainPointwise(a1, h1);
    ChainPointwise(a2, h2);
    DistinctPrefix(o1, n - 1);
    DistinctPairs(o1);
    assert Keyed(a2, i2, o2, h2) by {
      forall i | 0 <= i < |o2| ensures o2[i] in i2 && i2[o2[i]] == h2[i] {
        assert o2[i] == o1[i] != o1[n - 1];
      }
    }
    ValuesSameData(a1, a2, i1);
  }

  /** Registering the fresh node `e` under the new key `key`. */
  lemma Inserted<K, V>(arena: seq<Node<K, V>>, index: map<K, int>, order: seq<K>, hs: seq<int>, key: K, e: int)
    requires Keyed(arena, index, order, hs) && Bounded(arena, index) && key !in index && 0 <= e < |arena|
    ensures key !in order
    ensures Keyed(arena, index[key := e], order, hs) && Bounded(arena, index[key := e])
    ensures Values(arena, index[key := e]) == Values(arena, index)[key := arena[e].value]
  {
  }

  /** Writing the value of the node of `key`, when no other key shares that node. */
  lemma ValueWritten<K, V>(arena: seq<Node<K, V>>, index: map<K, int>, key: K, v: V)
    requires Bounded(arena, index) && key in index
    requires forall k :: k in index && k != key ==> index[k] != index[key]
    ensures var a1 := arena[index[key] := arena[index[key]].(value := v)];
      && Bounded(a1, index)
      && Values(a1, index) == Values(arena, index)[key := v]
      && forall h :: 0 <= h < |arena| ==> a1[h].key == arena[h].key && a1[h].next == arena[h].next && a1[h].previous == arena[h].previous
  {
  }

  /**
   * The state PutEntry reaches just before writing the value: `entry` is the
   * node of `key`, linked or fresh, and writing `value` into it and moving it
   * to the head yields `target`.
   */
  ghost predicate Ready<K, V>(arena: seq<Node<K, V>>, index: map<K, int>, order: seq<K>, hs: seq<int>,
                              head: int, tail: int, cacheSize: int, entry: int, key: K, value: V, target: Lru<K, V>) {
    && 0 <= entry < |arena| && arena[entry].key == key && key in index && index[key] == entry
    && Keyed(arena, index, order, hs) && Chain(arena, hs) && Bounded(arena, index)
    && (forall k :: k in index && k != key ==> index[k] != entry)
    && 0 < cacheSize && |order| <= cacheSize
    && (|order| > 0 ==> head == hs[0] && tail == hs[|hs| - 1])
    && (cacheSize >= 2 && |order| > 0 ==> arena[tail].next == Null)
    && (|order| == 0 ==> tail == Null && (head == Null || (cacheSize == 1 && 0 <= head < |arena| && head != entry)))
    && (key !in order ==> arena[entry].next == Null && arena[entry].previous == Null)
    && Values(arena, index)[key := value] == target.values
    && Promote(order, key) == target.keys
  }

  lemma ReadyWritten<K, V>(arena: seq<Node<K, V>>, a1: seq<Node<K, V>>, index: map<K, int>, order: seq<K>, hs: seq<int>,
                           head: int, tail: int, cacheSize: int, entry: int, key: K, value: V, target: Lru<K, V>)
    requires Ready(arena, index, order, hs, head, tail, cacheSize, entry, key, value, target)
    requires a1 == arena[entry := arena[entry].(value := value)]
    ensures Keyed(a1, index, order, hs) && Chain(a1, hs) && Bounded(a1, index)
    ensures Values(a1, index) == target.values
    ensures 0 <= entry < |a1| && a1[entry].key == key && key in index && index[key] == entry
    ensures 0 < cacheSize && |order| <= cacheSize
    ensures |order| > 0 ==> head == hs[0] && tail == hs[|hs| - 1]
    ensures cacheSize >= 2 && |order| > 0 ==> a1[tail].next == Null
    ensures |order| == 0 ==> tail == Null && (head == Null || (cacheSize == 1 && 0 <= head < |a1| && head != entry))
    ensures key !in order ==> a1[entry].next == Null && a1[entry].previous == Null
    ensures Promote(order, key) == target.keys
  {
    ValueWritten(arena, index, key, value);
    ChainPointwise(arena, hs);
    ChainPointwise(a1, hs);
  }

  /** GetEntry on a key present: its node meets what MoveToHead requires. */
  lemma ReadyMove<K, V>(a: seq<Node<K, V>>, i: map<K, int>, o: seq<K>, h: seq<int>,
                        hd: int, tl: int, cs: int, key: K)
    requires Linked(a, i, o, h, hd, tl, cs) && key in i
    ensures 0 <= i[key] < |a| && a[i[key]].key == key && key in o
    ensures Keyed(a, i, o, h) && Chain(a, h)
    ensures 0 < cs && |o| <= cs && |o| > 0 && hd == h[0] && tl == h[|h| - 1]
    ensures cs >= 2 ==> a[tl].next == Null
  {
    KeyedBounded(a, i, o, h);
    var p :| 0 <= p < |o| && o[p] == key;
  }

  /** PutEntry on a key already present: the node is the indexed one. */
  lemma ReadyHit<K, V>(a: seq<Node<K, V>>, i: map<K, int>, o: seq<K>, h: seq<int>,
                       hd: int, tl: int, cs: int, key: K, value: V)
    requires Linked(a, i, o, h, hd, tl, cs) && key in i
    ensures Bounded(a, i) && Wf(Abs(a, i, o, cs))
    ensures Ready(a, i, o, h, hd, tl, cs, i[key], key, value, Put(Abs(a, i, o, cs), key, value))
  {
    LinkedAbs(a, i, o, h, hd, tl, cs);
    KeyedInjective(a, i, o, h);
    var p :| 0 <= p < |o| && o[p] == key;
  }

  /** PutEntry on a new key with room left: a fresh node is appended (`a1`) and indexed (`i1`). */
  lemma ReadyInsert<K, V>(a: seq<Node<K, V>>, i: map<K, int>, o: seq<K>, h: seq<int>,
                          hd: int, tl: int, cs: int, key: K, value: V, a1: seq<Node<K, V>>, i1: map<K, int>)
    requires Linked(a, i, o, h, hd, tl, cs) && key !in i && |i| != cs
    requires a1 == a + [Node(key, value, Null, Null)] && i1 == i[key := |a|]
    ensures Bounded(a, i) && Wf(Abs(a, i, o, cs))
    ensures Ready(a1, i1, o, h, hd, tl, cs, |a|, key, value, Put(Abs(a, i, o, cs), key, value))
  {
    LinkedAbs(a, i, o, h, hd, tl, cs);
    Appended(a, a1, i, o, h);
    Inserted(a1, i, o, h, key, |a|);
    WithoutAbsent(o, key);
  }

  /** In a full cache the tail is a node, and so is the node before it when there is one. */
  lemma TailLinks<K, V>(a: seq<Node<K, V>>, i: map<K, int>, o: seq<K>, h: seq<int>,
                        hd: int, tl: int, cs: int, a1: seq<Node<K, V>>)
    requires Linked(a, i, o, h, hd, tl, cs) && |i| == cs
    requires |a1| == |a| + 1 && a1[..|a|] == a
    ensures 0 <= tl < |a| && a1[tl] == a[tl]
    ensures a1[tl].previous == Null || 0 <= a1[tl].previous < |a|
  {
    var n := |o|;
    assert a1[tl] == a1[..|a|][tl];
    ChainPointwise(a, h);
    if n > 1 {
      assert a[tl].previous == h[n - 2];
    }
  }

  /**
   * The links of PutEntry on a new key in a full cache: a fresh node is
   * appended (`a1`), the node `t` before the tail `tl` becomes the tail with
   * its forward link cleared (`a2`), and the tail key leaves the index (`i1`).
   */
  lemma EvictLinks<K, V>(a: seq<Node<K, V>>, i: map<K, int>, o: seq<K>, h: seq<int>, tl: int, key: K, value: V,
                         a1: seq<Node<K, V>>, a2: seq<Node<K, V>>, i1: map<K, int>, o2: seq<K>, h2: seq<int>, t: int)
    requires Keyed(a, i, o, h) && Chain(a, h) && Bounded(a, i) && |o| > 0 && tl == h[|h| - 1]
    requires a1 == a + [Node(key, value, Null, Null)]
    requires t == a1[tl].previous && (t == Null || 0 <= t < |a1|)
    requires a2 == if t != Null then a1[t := a1[t].(next := Null)] else a1
    requires i1 == i - {o[|o| - 1]} && o2 == o[..|o| - 1] && h2 == h[..|h| - 1]
    ensures a1[tl].key == o[|o| - 1]
    ensures t == if |o| > 1 then h2[|h2| - 1] else Null
    ensures Keyed(a2, i1, o2, h2) && Chain(a2, h2) && Bounded(a2, i1)
    ensures Values(a2, i1) == Values(a, i) - {o[|o| - 1]}
    ensures |o| > 1 ==> a2[t].next == Null
    ensures |a2| == |a| + 1 && a2[|a|] == Node(key, value, Null, Null)
    ensures forall k :: k in i1 ==> i1[k] < |a|
    ensures |o| > 1 ==> h2[0] == h[0]
  {
    var n := |o|;
    Appended(a, a1, i, o, h);
    assert a1[tl] == a[tl];
    ChainPointwise(a, h);
    Evicted(a1, a2, i, o, h);
    assert a2[|a|] == a1[|a|];
  }

  /** PutEntry on a new key in a full cache, after the eviction and the indexing of the fresh node (`i2`). */
  lemma ReadyEvict<K, V>(a: seq<Node<K, V>>, i: map<K, int>, o: seq<K>, h: seq<int>,
                         hd: int, tl: int, cs: int, key: K, value: V,
                         a1: seq<Node<K, V>>, a2: seq<Node<K, V>>, i2: map<K, int>, o2: seq<K>, h2: seq<int>, t: int)
    requires Linked(a, i, o, h, hd, tl, cs) && key !in i && |i| == cs
    requires a1 == a + [Node(key, value, Null, Null)]
    requires 0 <= tl < |a1| && t == a1[tl].previous && (t == Null || 0 <= t < |a1|)
    requires a2 == if t != Null then a1[t := a1[t].(next := Null)] else a1
    requires i2 == (i - {a1[tl].key})[key := |a|]
    requires |o| > 0 && o2 == o[..|o| - 1] && |h| > 0 && h2 == h[..|h| - 1]
    ensures Bounded(a, i) && Wf(Abs(a, i, o, cs))
    ensures Ready(a2, i2, o2, h2, hd, t, cs, |a|, key, value, Put(Abs(a, i, o, cs), key, value))
  {
    LinkedAbs(a, i, o, h, hd, tl, cs);
    var i1 := i - {o[|o| - 1]};
    EvictLinks(a, i, o, h, tl, key, value, a1, a2, i1, o2, h2, t);
    Inserted(a2, i1, o2, h2, key, |a|);
    WithoutAbsent(o2, key);
  }

  /** PutEntry on a new key, with or without an eviction, right after the fresh node is indexed. */
  lemma ReadyAdd<K, V>(a: seq<Node<K, V>>, i: map<K, int>, o: seq<K>, h: seq<int>,
                       hd: int, tl: int, cs: int, key: K, value: V,
                       a1: seq<Node<K, V>>, a2: seq<Node<K, V>>, i2: map<K, int>, o2: seq<K>, h2: seq<int>, t: int)
    requires Linked(a, i, o, h, hd, tl, cs) && key !in i
    requires a1 == a + [Node(key, value, Null, Null)]
    requires |i| == cs ==>
      && 0 <= tl < |a1| && t == a1[tl].previous && (t == Null || 0 <= t < |a1|)
      && a2 == (if t != Null then a1[t := a1[t].(next := Null)] else a1)
      && i2 == (i - {a1[tl].key})[key := |a|]
      && |o| > 0 && o2 == o[..|o| - 1] && |h| > 0 && h2 == h[..|h| - 1]
    requires |i| != cs ==> a2 == a1 && i2 == i[key := |a|] && o2 == o && h2 == h && t == tl
    ensures Bounded(a, i) && Wf(Abs(a, i, o, cs))
    ensures Ready(a2, i2, o2, h2, hd, t, cs, |a|, key, value, Put(Abs(a, i, o, cs), key, value))
  {
    if |i| == cs {
      ReadyEvict(a, i, o, h, hd, tl, cs, key, value, a1, a2, i2, o2, h2, t);
    } else {
      ReadyInsert(a, i, o, h, hd, tl, cs, key, value, a2, i2);
    }
  }

  /** After the value write and the move to the head, the state is linked and abstracts to `target`. */
  lemma PutDone<K, V>(a: seq<Node<K, V>>, i: map<K, int>, o: seq<K>, h: seq<int>,
                      hd: int, tl: int, cs: int, target: Lru<K, V>)
    requires Wf(target) && target.capacity == cs
    requires Keyed(a, i, o, h) && Chain(a, h)
    requires Bounded(a, i) && Values(a, i) == target.values && o == target.keys
    requires o != [] && hd == h[0] && tl == h[|h| - 1]
    requires cs >= 2 ==> a[tl].next == Null
    ensures Linked(a, i, o, h, hd, tl, cs) && Abs(a, i, o, cs) == target
  {
    assert i.Keys == target.values.Keys;
  }
}
