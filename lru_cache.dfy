/**
 * The doubly-linked least-recently-used cache of WmClient/LRUCache.cs.
 *
 * Nodes live in an arena (see `LruLinks`): `index` is the dictionary from
 * keys to nodes and `head`/`tail` are the ends of the list. The ghost
 * `order` lists the live keys from head to tail and `handles` their nodes;
 * `Valid()` ties both to the real links and `Contents()` is the abstract
 * cache of `LruSpec` they stand for.
 */
module LruCache {
  import opened Wrappers
  import opened LruSpec
  import opened LruLinks

  class LRUCache<K(==), V> {
    var arena: seq<Node<K, V>>
    var index: map<K, int>
    const cacheSize: int
    var head: int
    var tail: int
    ghost var order: seq<K>
    ghost var handles: seq<int>

    ghost predicate Valid()
      reads this
    {
      Linked(arena, index, order, handles, head, tail, cacheSize)
    }

    /** The abstract cache: recency order and the value stored for each key. */
    ghost function Contents(): (c: Lru<K, V>)
      reads this
      requires Valid()
      ensures Wf(c) && c.capacity == cacheSize && c.keys == order
    {
      LinkedAbs(arena, index, order, handles, head, tail, cacheSize);
      Abs(arena, index, order, cacheSize)
    }

    constructor (size: int)
      ensures Valid() && Contents() == Empty(Capacity(size))
    {
      cacheSize := if size > 0 then size else DefaultSize;
      arena := [];
      index := map[];
      head := Null;
      tail := Null;
      order := [];
      handles := [];
    }

    constructor Default()
      ensures Valid() && Contents() == Empty(DefaultSize)
    {
      cacheSize := DefaultSize;
      arena := [];
      index := map[];
      head := Null;
      tail := Null;
      order := [];
      handles := [];
    }

    method GetEntry(key: K) returns (r: Option<V>)
      requires Valid()
      modifies this
      ensures Valid()
      ensures (r, Contents()) == Get(old(Contents()), key)
    {
      ghost var c0 := Contents();
      ghost var a0 := arena;
      if key !in index {
        return None;
      }
      var entry := index[key];
      PromoteWf(c0, key);
      ReadyMove(arena, index, order, handles, head, tail, cacheSize, key);
      MoveToHead(entry);
      ValuesSameData(a0, arena, index);
      r := Some(arena[entry].value);
    }

    method PutEntry(key: K, value: V)
      requires Valid()
      modifies this
      ensures Valid()
      ensures Contents() == Put(old(Contents()), key, value)
      ensures 0 <= head < |arena| && arena[head].key == key && 0 <= tail < |arena|
    {
      LinkedAbs(arena, index, order, handles, head, tail, cacheSize);
      ghost var c0 := Abs(arena, index, order, cacheSize);
      PutPreservesWf(c0, key, value);
      var entry;
      if key !in index {
        entry := AddEntry(key, value);
      } else {
        ReadyHit(arena, index, order, handles, head, tail, cacheSize, key, value);
        entry := index[key];
      }
      Finish(entry, key, value, Put(c0, key, value));
      PutThenGet(c0, key, value);
    }

    /**
     * The miss branch of PutEntry: a fresh node for `key` is created, the
     * tail is evicted when the cache is full, and the key is indexed.
     */
    method AddEntry(key: K, value: V) returns (entry: int)
      requires Valid() && key !in index
      modifies this
      ensures Ready(arena, index, order, handles, head, tail, cacheSize, entry, key, value, Put(old(Contents()), key, value))
    {
      ghost var a0, i0, o0, h0, t0 := arena, index, order, handles, tail;
      entry := |arena|;
      arena := arena + [Node(key, value, Null, Null)];
      ghost var a1 := arena;
      if |index| == cacheSize {
        TailLinks(a0, i0, o0, h0, head, t0, cacheSize, arena);
        EvictTail();
      }
      index := index[key := entry];
      ReadyAdd(a0, i0, o0, h0, head, t0, cacheSize, key, value, a1, arena, index, order, handles, tail);
    }

    /**
     * The eviction step of PutEntry: the key of the tail leaves the index and
     * the node before the tail becomes the tail, its forward link cleared.
     */
    method EvictTail()
      requires 0 <= tail < |arena| && |order| > 0 && |handles| > 0
      requires arena[tail].previous == Null || 0 <= arena[tail].previous < |arena|
      modifies this
      ensures index == old(index) - {old(arena)[old(tail)].key}
      ensures tail == old(arena)[old(tail)].previous
      ensures arena == if tail != Null then old(arena)[tail := old(arena)[tail].(next := Null)] else old(arena)
      ensures order == old(order)[..|old(order)| - 1] && handles == old(handles)[..|old(handles)| - 1]
      ensures head == old(head)
    {
      index := index - {arena[tail].key};
      tail := arena[tail].previous;
      if tail != Null {
        arena := arena[tail := arena[tail].(next := Null)];
      }
      order := order[..|order| - 1];
      handles := handles[..|handles| - 1];
    }

    /** Stores `value` in `entry`, the node of `key`, then moves it to the head (see `Settle`). */
    method Finish(entry: int, key: K, value: V, ghost target: Lru<K, V>)
      requires Wf(target) && target.capacity == cacheSize
      requires Ready(arena, index, order, handles, head, tail, cacheSize, entry, key, value, target)
      modifies this
      ensures Valid() && Contents() == target
    {
      ghost var a3 := arena;
      arena := arena[entry := arena[entry].(value := value)];
      ReadyWritten(a3, arena, index, order, handles, head, tail, cacheSize, entry, key, value, target);
      Settle(entry, key, target);
    }

    /**
     * Moves `entry`, the node of `key` now holding its new value, to the head,
     * and makes the head the tail of a list left without one.
     */
    method Settle(entry: int, key: K, ghost target: Lru<K, V>)
      requires Wf(target) && target.capacity == cacheSize
      requires 0 <= entry < |arena| && arena[entry].key == key && key in index && index[key] == entry
      requires Keyed(arena, index, order, handles) && Chain(arena, handles) && Bounded(arena, index)
      requires 0 < cacheSize && |order| <= cacheSize
      requires |order| > 0 ==> head == handles[0] && tail == handles[|handles| - 1]
      requires cacheSize >= 2 && |order| > 0 ==> arena[tail].next == Null
      requires |order| == 0 ==> tail == Null && (head == Null || (cacheSize == 1 && 0 <= head < |arena| && head != entry))
      requires key !in order ==> arena[entry].next == Null && arena[entry].previous == Null
      requires Values(arena, index) == target.values
      requires Promote(order, key) == target.keys
      modifies this
      ensures Valid() && Contents() == target
    {
      ghost var a4 := arena;
      MoveToHead(entry);
      ValuesSameData(a4, arena, index);
      if tail == Null {
        tail := head;
      }
      PutDone(arena, index, order, handles, head, tail, cacheSize, target);
    }

    method Clear()
      requires Valid()
      modifies this
      ensures Valid()
      ensures Contents() == LruSpec.Clear(old(Contents()))
      ensures head == Null && tail == Null
    {
      index := map[];
      head := Null;
      tail := Null;
      order := [];
      handles := [];
    }

    /** The number of stored entries. */
    function Size(): (n: int)
      reads this
      requires Valid()
      ensures n == |Contents().values| == |Contents().keys|
      ensures 0 <= n <= cacheSize
    {
      |index|
    }

    /**
     * Unlinks `entry` (when it is live) and relinks it in front of the head.
     * `entry` is either a live node or a fresh unlinked node whose key `index`
     * already holds. When the list is empty, `head` may still name the node
     * evicted just before (capacity one), which is never reset.
     */
    method MoveToHead(entry: int)
      requires 0 <= entry < |arena|
      requires Keyed(arena, index, order, handles) && Chain(arena, handles)
      requires arena[entry].key in index && index[arena[entry].key] == entry
      requires 0 < cacheSize && |order| <= cacheSize
      requires |order| > 0 ==> head == handles[0] && tail == handles[|handles| - 1]
      requires cacheSize >= 2 && |order| > 0 ==> arena[tail].next == Null
      requires |order| == 0 ==> tail == Null && (head == Null || (cacheSize == 1 && 0 <= head < |arena| && head != entry))
      requires arena[entry].key !in order ==> arena[entry].next == Null && arena[entry].previous == Null
      modifies this
      ensures index == old(index)
      ensures order == Promote(old(order), old(arena[entry].key))
      ensures Keyed(arena, index, order, handles) && Chain(arena, handles)
      ensures head == entry == handles[0]
      ensures old(order) != [] ==> tail == handles[|handles| - 1]
      ensures old(order) == [] ==> tail == Null && |handles| == 1
      ensures cacheSize >= 2 ==> arena[handles[|handles| - 1]].next == Null
      ensures SameData(old(arena), arena)
    {
      ghost var k := arena[entry].key;
      if entry == head || entry == Null {
        PromoteHead(order);
        return;
      }
      ghost var a0 := arena;
      ghost var o0 := order;
      ghost var oldHead := head;
      Neighbours(arena, index, order, handles, entry, head, cacheSize);

      var previous := arena[entry].previous;
      Relink(entry);
      ghost var hs := Moved(a0, arena, index, order, handles, entry, oldHead, cacheSize);
      head := entry;

      if tail == entry {
        tail := previous;
      }
      order := Promote(o0, k);
      handles := hs;
    }

    /**
     * The node writes of MoveToHead: `entry` is unlinked from its neighbours
     * and linked in front of `head`.
     */
    method Relink(entry: int)
      requires 0 <= entry < |arena| && head != entry
      requires head == Null || 0 <= head < |arena|
      requires arena[entry].next == Null || (0 <= arena[entry].next < |arena| && arena[entry].next != entry && arena[entry].next != head)
      requires arena[entry].previous == Null || (0 <= arena[entry].previous < |arena| && arena[entry].previous != entry)
      modifies `arena
      ensures Rewired(old(arena), arena, entry, old(arena[entry].next), old(arena[entry].previous), head)
    {
      // The writes go to a working copy `a` of the arena.
      var a := arena;
      var next := a[entry].next;
      var previous := a[entry].previous;

      if next != Null {
        a := a[next := a[next].(previous := a[entry].previous)];
      }
      if previous != Null {
        a := a[previous := a[previous].(next := a[entry].next)];
      }

      a := a[entry := a[entry].(previous := Null)];
      a := a[entry := a[entry].(next := head)];

      if head != Null {
        a := a[head := a[head].(previous := entry)];
      }
      arena := a;
    }
  }
}
