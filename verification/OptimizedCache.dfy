/**
 The sharded LRU cache of cache_optimized.go on the heap: each shard owns a map of entries threaded through an
 intrusive doubly linked list. Every public operation is taken as atomic.
 */
module OptimizedCache {
  import opened Base
  import M = ShardModel
  import C = CacheModel
  import ShardIndex

  class Entry {
    const key: string
    const content: M.Content
    const expiresAt: int
    var prev: Entry?
    var next: Entry?
    var accessCount: int
    var lastAccess: int
    var hotPromoted: bool

    constructor (key: string, content: M.Content, ttl: int, now: int)
      ensures this.key == key && prev == null && next == null && !hotPromoted
      ensures Item() == M.Item(content, now + ttl, 1, now)
    {
      this.key, this.content, expiresAt := key, content, now + ttl;
      prev, next := null, null;
      accessCount, lastAccess, hotPromoted := 1, now, false;
    }

    function Item(): M.Item
      reads this`accessCount, this`lastAccess
    {
      M.Item(content, expiresAt, accessCount, lastAccess)
    }
  }

  ghost predicate Apart(nodes: seq<Entry>, i: int, j: int)
    requires 0 <= i < |nodes| && 0 <= j < |nodes|
  {
    nodes[i] != nodes[j]
  }

  /** NoDuplicates, instantiated only where Apart is mentioned. */
  ghost predicate Unique(nodes: seq<Entry>) {
    forall i, j {:trigger Apart(nodes, i, j)} :: 0 <= i < j < |nodes| ==> Apart(nodes, i, j)
  }

  lemma UniqueMeaning(nodes: seq<Entry>)
    ensures Unique(nodes) <==> NoDuplicates(nodes)
  {
    if Unique(nodes) {
      forall i, j | 0 <= i < j < |nodes|
        ensures nodes[i] != nodes[j]
      {
        assert Apart(nodes, i, j);
      }
    }
  }

  /** Position i of the list holds the entry that the map has under its own key, the key listed at i. */
  ghost predicate Stands(store: map<string, Entry>, order: seq<string>, nodes: seq<Entry>, i: int)
    requires |order| == |nodes| && 0 <= i < |nodes|
  {
    order[i] == nodes[i].key && order[i] in store && store[order[i]] == nodes[i]
  }

  /** The list holds as many entries as the map, each filed under its own key: together, exactly the map's values. */
  ghost predicate Filed(store: map<string, Entry>, order: seq<string>, nodes: seq<Entry>) {
    && |order| == |nodes| == |store|
    && (forall k :: k in store ==> store[k].key == k)
    && (forall i {:trigger Stands(store, order, nodes, i)} :: 0 <= i < |nodes| ==> Stands(store, order, nodes, i))
  }

  lemma FiledMeaning(store: map<string, Entry>, order: seq<string>, nodes: seq<Entry>)
    requires Filed(store, order, nodes)
    ensures forall i :: 0 <= i < |nodes| ==>
              order[i] == nodes[i].key && order[i] in store && store[order[i]] == nodes[i]
    ensures NoDuplicates(nodes) ==> NoDuplicates(order)
  {
    forall i | 0 <= i < |nodes|
      ensures order[i] == nodes[i].key && order[i] in store && store[order[i]] == nodes[i]
    {
      assert Stands(store, order, nodes, i);
    }
  }

  lemma Listed(store: map<string, Entry>, order: seq<string>, nodes: seq<Entry>, key: string)
    requires Filed(store, order, nodes) && Unique(nodes) && key in store
    ensures store[key] in nodes
  {
    UniqueMeaning(nodes);
    FiledMeaning(store, order, nodes);
    if store[key] !in nodes {
      CountElements(order);
      var listed := set x | x in order;
      assert listed <= store.Keys - {key};
      CardinalityLE(listed, store.Keys - {key});
    }
  }

  lemma {:induction false} CardinalityLE<T>(a: set<T>, b: set<T>)
    requires a <= b
    ensures |a| <= |b|
  {
    if a != {} {
      var x :| x in a;
      CardinalityLE(a - {x}, b - {x});
    }
  }

  /** An entry and its key stand at the same position. */
  lemma SamePosition(store: map<string, Entry>, order: seq<string>, nodes: seq<Entry>, e: Entry)
    requires Filed(store, order, nodes) && Unique(nodes) && e in nodes
    ensures IndexOf(order, e.key) == IndexOf(nodes, e) < |nodes|
  {
    FiledMeaning(store, order, nodes);
    UniqueMeaning(nodes);
    var i := IndexOf(nodes, e);
    assert order[i] == e.key;
  }

  lemma FiledWithout(store: map<string, Entry>, order: seq<string>, nodes: seq<Entry>, e: Entry)
    requires Filed(store, order, nodes) && Unique(nodes) && e in nodes
    ensures Filed(store - {e.key}, Without(order, e.key), Without(nodes, e))
  {
    SamePosition(store, order, nodes, e);
    UniqueMeaning(nodes);
    FiledMeaning(store, order, nodes);
    var i := IndexOf(nodes, e);
    assert nodes[i] == e;
    assert store.Keys == (store - {e.key}).Keys + {e.key};
    var store', order', nodes' := store - {e.key}, Cut(order, i), Cut(nodes, i);
    forall j | 0 <= j < |nodes'|
      ensures Stands(store', order', nodes', j)
    {
      var k := if j < i then j else j + 1;
      assert nodes'[j] == nodes[k] && order'[j] == order[k] && nodes[k] != nodes[i];
    }
  }

  lemma FiledToFront(store: map<string, Entry>, order: seq<string>, nodes: seq<Entry>, e: Entry)
    requires Filed(store, order, nodes) && Unique(nodes) && e in nodes
    ensures Filed(store, ToFront(order, e.key), ToFront(nodes, e))
  {
    SamePosition(store, order, nodes, e);
    FiledMeaning(store, order, nodes);
    var i := IndexOf(nodes, e);
    var order', nodes' := [order[i]] + Cut(order, i), [nodes[i]] + Cut(nodes, i);
    forall j | 0 <= j < |nodes'|
      ensures Stands(store, order', nodes', j)
    {
      var k := if j == 0 then i else if j <= i then j - 1 else j;
      assert nodes'[j] == nodes[k] && order'[j] == order[k];
    }
  }

  lemma FiledPush(store: map<string, Entry>, order: seq<string>, nodes: seq<Entry>, e: Entry)
    requires Filed(store, order, nodes) && e.key !in store
    ensures Filed(store[e.key := e], [e.key] + order, [e] + nodes) && e !in nodes
  {
    FiledMeaning(store, order, nodes);
    var store', order', nodes' := store[e.key := e], [e.key] + order, [e] + nodes;
    assert store'.Keys == store.Keys + {e.key};
    forall j | 0 <= j < |nodes'|
      ensures Stands(store', order', nodes', j)
    {
      assert j > 0 ==> nodes'[j] == nodes[j - 1] && order'[j] == order[j - 1];
    }
  }

  ghost predicate Within(store: map<string, Entry>, repr: set<Entry>) {
    forall k :: k in store ==> store[k] in repr
  }

  ghost function ItemsOf(store: map<string, Entry>, repr: set<Entry>): map<string, M.Item>
    requires Within(store, repr)
    reads repr`accessCount, repr`lastAccess
  {
    map k | k in store :: store[k].Item()
  }

  lemma ItemsWithout(store: map<string, Entry>, repr: set<Entry>, key: string)
    requires Within(store, repr)
    ensures ItemsOf(store - {key}, repr) == ItemsOf(store, repr) - {key}
  {
  }

  lemma ItemsPush(store: map<string, Entry>, repr: set<Entry>, e: Entry)
    requires Within(store, repr) && e in repr
    ensures ItemsOf(store[e.key := e], repr) == ItemsOf(store, repr)[e.key := e.Item()]
  {
  }

  class Shard {
    var store: map<string, Entry>
    var head: Entry?
    var tail: Entry?
    var hits: int
    var misses: int
    var evictions: int
    var size: int
    const threshold: int  // the integer part of maxSize * EvictionThreshold
    ghost var nodes: seq<Entry>  // the list from head to tail
    ghost var repr: set<Entry>  // the residents, and possibly entries that have left

    /** Following next from head runs through s and stops. */
    ghost predicate Forward(s: seq<Entry>)
      requires forall i :: 0 <= i < |s| ==> s[i] in repr
      reads this`head, this`repr, repr`next
    {
      && head == (if s == [] then null else s[0])
      && (s != [] ==> s[|s| - 1].next == null)
      && forall i {:trigger s[i].next} :: 0 <= i < |s| - 1 ==> s[i].next == s[i + 1]
    }

    /** Following prev from tail runs back through s and stops. */
    ghost predicate Backward(s: seq<Entry>)
      requires forall i :: 0 <= i < |s| ==> s[i] in repr
      reads this`tail, this`repr, repr`prev
    {
      && tail == (if s == [] then null else s[|s| - 1])
      && (s != [] ==> s[0].prev == null)
      && forall i {:trigger s[i].prev} :: 1 <= i < |s| ==> s[i].prev == s[i - 1]
    }

    ghost predicate Chain()
      reads this`head, this`tail, this`nodes, this`repr, repr`prev, repr`next
    {
      && (forall i :: 0 <= i < |nodes| ==> nodes[i] in repr)
      && Unique(nodes) && Forward(nodes) && Backward(nodes)
    }

    /** m carries the fields of every resident entry and the counters. */
    ghost predicate Carries(m: M.Shard)
      reads this`store, this`repr, this`size, this`hits, this`misses, this`evictions
      reads repr`accessCount, repr`lastAccess
    {
      && Within(store, repr)
      && m.store == ItemsOf(store, repr)
      && m.size == size && m.hits == hits && m.misses == misses && m.evictions == evictions
    }

    /** No promotion is under way. */
    ghost predicate Settled()
      reads this`repr, repr`hotPromoted
    {
      forall e :: e in repr ==> !e.hotPromoted
    }

    /** The heap is a proper list and map, and m is its abstract value. */
    ghost predicate Represents(m: M.Shard)
      reads this, repr
    {
      Chain() && Filed(store, m.order, nodes) && Carries(m) && Settled()
    }

    constructor (threshold: int)
      ensures Represents(M.EMPTY_SHARD) && this.threshold == threshold && repr == {}
    {
      store, head, tail, nodes, repr := map[], null, null, [], {};
      hits, misses, evictions, size := 0, 0, 0, 0;
      this.threshold := threshold;
    }

    // addToLRU
    method AddToLRU(entry: Entry)
      requires Chain() && entry in repr && entry !in nodes && entry.prev == null && entry.next == null
      modifies this`head, this`tail, this`nodes, repr`prev, repr`next
      ensures Chain() && nodes == [entry] + old(nodes)
    {
      assert head != null ==> head in nodes;
      UniqueMeaning(nodes);
      UniqueMeaning([entry] + nodes);
      nodes := [entry] + nodes;
      if head == null {
        head := entry;
        tail := entry;
        return;
      }
      entry.next := head;
      head.prev := entry;
      head := entry;
    }

    /** Once the link over position i is closed, next runs through the remaining nodes. */
    lemma ForwardCut(s: seq<Entry>, i: nat)
      requires i < |s| && forall j :: 0 <= j < |s| ==> s[j] in repr
      requires var after := if i == |s| - 1 then null else s[i + 1];
               if i == 0 then head == after else head == s[0] && s[i - 1].next == after
      requires i < |s| - 1 ==> s[|s| - 1].next == null
      requires forall j {:trigger s[j].next} :: 0 <= j < |s| - 1 && j != i - 1 && j != i ==> s[j].next == s[j + 1]
      ensures Forward(Cut(s, i))
    {
    }

    lemma BackwardCut(s: seq<Entry>, i: nat)
      requires i < |s| && forall j :: 0 <= j < |s| ==> s[j] in repr
      requires var before := if i == 0 then null else s[i - 1];
               if i == |s| - 1 then tail == before else tail == s[|s| - 1] && s[i + 1].prev == before
      requires i > 0 ==> s[0].prev == null
      requires forall j {:trigger s[j].prev} :: 1 <= j < |s| && j != i + 1 && j != i ==> s[j].prev == s[j - 1]
      ensures Backward(Cut(s, i))
    {
    }

    /** First half of removeLRU: the node before entry, or head, now leads to the node after it. */
    method CloseForward(entry: Entry, ghost i: nat)
      requires (forall j :: 0 <= j < |nodes| ==> nodes[j] in repr) && NoDuplicates(nodes)
      requires Forward(nodes) && Backward(nodes) && i < |nodes| && nodes[i] == entry
      modifies this`head, repr`next
      ensures Forward(Cut(nodes, i)) && entry.next == old(entry.next)
    {
      if entry.prev != null {
        assert entry.prev == nodes[i - 1] && nodes[i - 1] in nodes;
        entry.prev.next := entry.next;
      } else {
        head := entry.next;
      }
      ForwardCut(nodes, i);
    }

    /** Second half of removeLRU: the node after entry, or tail, now leads back to the node before it. */
    method CloseBackward(entry: Entry, ghost i: nat)
      requires (forall j :: 0 <= j < |nodes| ==> nodes[j] in repr) && NoDuplicates(nodes)
      requires Backward(nodes) && i < |nodes| && nodes[i] == entry
      requires entry.next == if i == |nodes| - 1 then null else nodes[i + 1]
      modifies this`tail, repr`prev
      ensures Backward(Cut(nodes, i))
    {
      if entry.next != null {
        assert entry.next == nodes[i + 1] && nodes[i + 1] in nodes;
        entry.next.prev := entry.prev;
      } else {
        tail := entry.prev;
      }
      BackwardCut(nodes, i);
    }

    // removeLRU
    method RemoveLRU(entry: Entry)
      requires Chain() && entry in nodes
      modifies this`head, this`tail, this`nodes, repr`prev, repr`next
      ensures Chain() && nodes == Without(old(nodes), entry)
      ensures entry !in nodes && entry.prev == null && entry.next == null
    {
      ghost var i := IndexOf(nodes, entry);
      UniqueMeaning(nodes);
      UniqueMeaning(Cut(nodes, i));
      CutAt(nodes, i);
      CloseForward(entry, i);
      CloseBackward(entry, i);
      entry.prev := null;
      entry.next := null;
      nodes := Cut(nodes, i);
    }

    method MoveToFront(entry: Entry)
      requires Chain() && entry in nodes
      modifies this`head, this`tail, this`nodes, repr`prev, repr`next
      ensures Chain() && nodes == ToFront(old(nodes), entry)
    {
      RemoveLRU(entry);
      AddToLRU(entry);
    }

    // promoteHotEntry
    method PromoteHotEntry(entry: Entry)
      requires Chain() && entry in nodes
      modifies this`head, this`tail, this`nodes, repr`prev, repr`next, entry`hotPromoted
      ensures Chain() && nodes == if old(entry.hotPromoted) then old(nodes) else ToFront(old(nodes), entry)
      ensures entry.hotPromoted == old(entry.hotPromoted)
    {
      if !entry.hotPromoted {
        entry.hotPromoted := true;
        MoveToFront(entry);
        entry.hotPromoted := false;
      }
    }

    /** delete(store, key): entry leaves the map and stays in the list. */
    method Unfile(entry: Entry, ghost m: M.Shard)
      requires Carries(m) && Filed(store, m.order, nodes) && Unique(nodes) && entry in nodes
      modifies this`store
      ensures Carries(m.(store := m.store - {entry.key})) && entry.key !in store
      ensures Filed(store, Without(m.order, entry.key), Without(nodes, entry))
    {
      FiledWithout(store, m.order, nodes, entry);
      ItemsWithout(store, repr, entry.key);
      store := store - {entry.key};
    }

    /** removeLRU touches nothing but the links. */
    method Detach(entry: Entry, ghost m: M.Shard)
      requires Chain() && entry in nodes && Carries(m) && Settled()
      modifies this`head, this`tail, this`nodes, repr`prev, repr`next
      ensures Chain() && nodes == Without(old(nodes), entry) && Carries(m) && Settled()
    {
      RemoveLRU(entry);
    }

    /** delete(store, key) followed by removeLRU: entry leaves the map and the list. */
    method Unlink(entry: Entry, ghost m: M.Shard)
      requires Represents(m) && entry in nodes
      modifies this`store, this`head, this`tail, this`nodes, repr`prev, repr`next
      ensures Represents(m.(store := m.store - {entry.key}, order := Without(m.order, entry.key)))
      ensures entry.key !in store
    {
      Unfile(entry, m);
      Detach(entry, m.(store := m.store - {entry.key}));
    }

    // evictLRU
    method EvictLRU(ghost m: M.Shard)
      requires Represents(m)
      modifies this`store, this`head, this`tail, this`nodes, this`size, this`evictions, repr`prev, repr`next
      ensures Represents(M.Evict(m))
    {
      if tail == null {
        return;
      }
      var evicted := tail;
      LastOut(store, m.order, nodes);
      ghost var m1 := m.(store := m.store - {evicted.key}, order := Without(m.order, evicted.key));
      assert M.Evict(m) == m1.(size := m.size - 1, evictions := m.evictions + 1);
      Unlink(evicted, m);
      AddSize(-1, m1);
      AddEviction(m1.(size := m.size - 1));
    }

    method AddSize(delta: int, ghost m: M.Shard)
      requires Represents(m)
      modifies this`size
      ensures Represents(m.(size := m.size + delta))
    {
      size := size + delta;
    }

    method AddEviction(ghost m: M.Shard)
      requires Represents(m)
      modifies this`evictions
      ensures Represents(m.(evictions := m.evictions + 1))
    {
      evictions := evictions + 1;
    }

    method Delete(key: string, ghost m: M.Shard)
      requires Represents(m)
      modifies this`store, this`head, this`tail, this`nodes, this`size, repr`prev, repr`next
      ensures Represents(M.Delete(m, key)) && key !in store
    {
      if key in store {
        Listed(store, m.order, nodes, key);
        Unlink(store[key], m);
        AddSize(-1, m.(store := m.store - {key}, order := Without(m.order, key)));
      }
    }

    method AddMiss(ghost m: M.Shard)
      requires Represents(m)
      modifies this`misses
      ensures Represents(m.(misses := m.misses + 1))
    {
      misses := misses + 1;
    }

    method AddHit(ghost m: M.Shard)
      requires Represents(m)
      modifies this`hits
      ensures Represents(m.(hits := m.hits + 1))
    {
      hits := hits + 1;
    }

    method Get(key: string, now: int, ghost m: M.Shard) returns (hit: Option<M.Hit>)
      requires Represents(m)
      modifies this`store, this`head, this`tail, this`nodes, this`hits, this`misses
      modifies repr`prev, repr`next, repr`accessCount, repr`lastAccess, repr`hotPromoted
      ensures Represents(M.Get(m, key, now).0) && hit == M.Get(m, key, now).1
    {
      if key !in store {
        AddMiss(m);
        return None;
      }
      var entry := store[key];
      if now > entry.expiresAt {
        Expire(entry, m);
        return None;
      }
      hit := Hit(entry, now, m);
    }

    /** The part of Get that drops an expired entry; size is left as it is. */
    method Expire(entry: Entry, ghost m: M.Shard)
      requires Represents(m) && entry.key in store && store[entry.key] == entry
      modifies this`store, this`head, this`tail, this`nodes, this`misses, repr`prev, repr`next
      ensures Represents(m.(store := m.store - {entry.key}, order := Without(m.order, entry.key),
                            misses := m.misses + 1))
    {
      Listed(store, m.order, nodes, entry.key);
      Unlink(entry, m);
      AddMiss(m.(store := m.store - {entry.key}, order := Without(m.order, entry.key)));
    }

    /** The part of Get that serves a live entry: count the access, copy the entry, promote every tenth time. */
    method Hit(entry: Entry, now: int, ghost m: M.Shard) returns (hit: Option<M.Hit>)
      requires Represents(m) && entry.key in store && store[entry.key] == entry && now <= entry.expiresAt
      modifies this`head, this`tail, this`nodes, this`hits
      modifies repr`prev, repr`next, repr`accessCount, repr`lastAccess, repr`hotPromoted
      ensures Represents(M.Get(m, entry.key, now).0) && hit == M.Get(m, entry.key, now).1
    {
      ghost var item := M.Accessed(entry.Item(), now);
      ghost var m1 := m.(store := m.store[entry.key := item]);
      ghost var m2 := if item.accessCount % 10 == 0 then m1.(order := ToFront(m.order, entry.key)) else m1;
      Count(entry, now, m);
      assert M.Get(m, entry.key, now) == (m2.(hits := m2.hits + 1), Some(M.HitOf(item)));
      hit := Some(M.HitOf(entry.Item()));
      PromoteIfDue(entry, m1);
      AddHit(m2);
    }

    method Count(entry: Entry, now: int, ghost m: M.Shard)
      requires Represents(m) && entry.key in store && store[entry.key] == entry
      modifies entry`accessCount, entry`lastAccess
      ensures entry.key in m.store && m.store[entry.key] == old(entry.Item())
      ensures Represents(m.(store := m.store[entry.key := M.Accessed(m.store[entry.key], now)]))
      ensures entry.Item() == M.Accessed(m.store[entry.key], now)
    {
      assert forall k :: k in store && k != entry.key ==> store[k] != entry;
      entry.accessCount := entry.accessCount + 1;
      entry.lastAccess := now;
      assert ItemsOf(store, repr) == m.store[entry.key := M.Accessed(m.store[entry.key], now)];
    }

    method PromoteIfDue(entry: Entry, ghost m: M.Shard)
      requires Represents(m) && entry.key in store && store[entry.key] == entry
      modifies this`head, this`tail, this`nodes, repr`prev, repr`next, repr`hotPromoted
      ensures Represents(if entry.accessCount % 10 == 0 then m.(order := ToFront(m.order, entry.key)) else m)
    {
      if entry.accessCount % 10 == 0 {
        Listed(store, m.order, nodes, entry.key);
        FiledToFront(store, m.order, nodes, entry);
        PromoteHotEntry(entry);
      }
    }

    method Set(key: string, content: M.Content, ttl: int, now: int, ghost m: M.Shard)
      requires Represents(m)
      modifies this, repr`prev, repr`next
      ensures repr >= old(repr) && fresh(repr - old(repr))
      ensures Represents(M.Set(threshold, m, key, content, ttl, now))
    {
      var entry := new Entry(key, content, ttl, now);
      Store(entry, content, ttl, now, m);
    }

    /** The part of Set under the lock. */
    method Store(entry: Entry, ghost content: M.Content, ghost ttl: int, ghost now: int, ghost m: M.Shard)
      requires Represents(m) && entry !in repr && entry.Item() == M.Item(content, now + ttl, 1, now)
      requires entry.prev == null && entry.next == null && !entry.hotPromoted
      modifies this, repr`prev, repr`next, entry`prev, entry`next
      ensures repr == old(repr) + {entry}
      ensures Represents(M.Set(threshold, m, entry.key, content, ttl, now))
    {
      ghost var m1 := M.Delete(M.EvictIfFull(threshold, m), entry.key);
      ghost var m2 := m1.(store := m1.store[entry.key := entry.Item()], order := [entry.key] + m1.order);
      assert M.Set(threshold, m, entry.key, content, ttl, now) == m2.(size := m2.size + 1);
      MakeRoom(entry.key, m);
      Link(entry, m1);
      AddSize(1, m2);
    }

    /** The eviction of a full shard, then the removal of an entry that already has the key. */
    method MakeRoom(key: string, ghost m: M.Shard)
      requires Represents(m)
      modifies this`store, this`head, this`tail, this`nodes, this`size, this`evictions, repr`prev, repr`next
      ensures Represents(M.Delete(if old(size) >= threshold then M.Evict(m) else m, key)) && key !in store
    {
      if size >= threshold {
        EvictLRU(m);
      }
      // the source overwrites the map slot of an existing entry; dropping the slot first comes to the same
      Delete(key, M.EvictIfFull(threshold, m));
    }

    /** store[key] = entry followed by addToLRU. */
    method Link(entry: Entry, ghost m: M.Shard)
      requires Represents(m) && entry !in repr && entry.key !in store
      requires entry.prev == null && entry.next == null && !entry.hotPromoted
      modifies this`store, this`head, this`tail, this`nodes, this`repr, repr`prev, repr`next, entry`prev, entry`next
      ensures repr == old(repr) + {entry}
      ensures Represents(m.(store := m.store[entry.key := entry.Item()], order := [entry.key] + m.order))
    {
      File(entry, m);
      AddToLRU(entry);
    }

    method File(entry: Entry, ghost m: M.Shard)
      requires Represents(m) && entry !in repr && entry.key !in store && !entry.hotPromoted
      modifies this`store, this`repr
      ensures repr == old(repr) + {entry} && entry !in nodes
      ensures Chain() && Settled() && Carries(m.(store := m.store[entry.key := entry.Item()]))
      ensures Filed(store, [entry.key] + m.order, [entry] + nodes)
    {
      FiledPush(store, m.order, nodes, entry);
      repr := repr + {entry};
      ItemsPush(store, repr, entry);
      store := store[entry.key := entry];
    }

    method Clear(ghost m: M.Shard)
      requires Represents(m)
      modifies this`store, this`head, this`tail, this`nodes, this`repr, this`size
      ensures Represents(M.Clear(m)) && repr == {}
    {
      store := map[];
      head := null;
      tail := null;
      size := 0;
      nodes, repr := [], {};
    }
  }

  /** The last entry leads to the same removal by position and by name. */
  lemma LastOut(store: map<string, Entry>, order: seq<string>, nodes: seq<Entry>)
    requires Filed(store, order, nodes) && Unique(nodes) && nodes != []
    ensures var last := |nodes| - 1;
            nodes[last] in nodes && nodes[last].key == order[last] && Without(order, order[last]) == order[..last]
  {
    FiledMeaning(store, order, nodes);
    UniqueMeaning(nodes);
  }

  /**
   count is the least power of two that is not below the wanted number of shards, two a processor when none is given;
   beyond 2^32 only where no run of zeros escapes the rounding.
   */
  ghost predicate CountFor(shardCount: int, cpus: nat, count: int) {
    var wanted := if shardCount <= 0 then cpus * 2 else shardCount;
    && (wanted <= 0x1_0000_0000 ==> ShardIndex.LeastPowerOf2(count, wanted))
    && (wanted > 1 ==> (ShardIndex.LeastPowerOf2(count, wanted) <==> ShardIndex.NoGap(wanted - 1, 32)))
  }

  /** Empty shards, all different. */
  method MakeShards(count: nat, threshold: int) returns (made: seq<Shard>)
    ensures |made| == count && fresh(made) && NoDuplicates(made)
    ensures forall j :: 0 <= j < count ==>
              made[j].Represents(M.EMPTY_SHARD) && made[j].threshold == threshold && made[j].repr == {}
  {
    made := [];
    for i := 0 to count
      invariant |made| == i && fresh(made) && NoDuplicates(made)
      invariant forall j :: 0 <= j < i ==>
                  made[j].Represents(M.EMPTY_SHARD) && made[j].threshold == threshold && made[j].repr == {}
    {
      var shard := new Shard(threshold);
      assert shard !in made;
      made := made + [shard];
    }
  }

  class Cache {
    const shards: seq<Shard>
    const hash: string -> nat  // FNV-1a over 64 bits
    const threshold: int
    var totalHits: int
    var totalMisses: int
    var totalSets: int
    var totalEvictions: int

    // NewOptimizedCacheWithSize; cpus stands for runtime.NumCPU()
    constructor (shardCount: int, threshold: int, cpus: nat, hash: string -> nat)
      requires cpus > 0
      ensures Represents(seq(|shards|, i => M.EMPTY_SHARD)) && fresh(Footprint())
      ensures this.threshold == threshold && this.hash == hash
      ensures |shards| > 0 && CountFor(shardCount, cpus, |shards|)
    {
      var wanted := if shardCount <= 0 then cpus * 2 else shardCount;
      var count := ShardIndex.NextPowerOf2(wanted);
      var made := MakeShards(count, threshold);
      shards := made;
      this.hash, this.threshold := hash, threshold;
      totalHits, totalMisses, totalSets, totalEvictions := 0, 0, 0, 0;
    }

    /** The index part of getShard. */
    ghost function Router(): C.Route
      requires |shards| > 0
    {
      key => ShardIndex.Index(hash(key), |shards|)
    }

    ghost predicate Separate(i: int, j: int)
      requires 0 <= i < |shards| && 0 <= j < |shards|
      reads shards
    {
      i != j ==> shards[i] != shards[j] && shards[i].repr !! shards[j].repr
    }

    ghost predicate Holds(i: int, m: M.Shard)
      requires 0 <= i < |shards|
      reads shards[i], shards[i].repr
    {
      shards[i].threshold == threshold && shards[i].Represents(m)
    }

    ghost function Footprint(): set<object>
      reads shards
    {
      (set s | s in shards) + (set i, e | 0 <= i < |shards| && e in shards[i].repr :: e)
    }

    /** Every shard is well formed with entries of its own, and cs lists the abstract shards. */
    ghost predicate Represents(cs: seq<M.Shard>)
      reads shards, Footprint()
    {
      && |cs| == |shards|
      && (forall i, j {:trigger Separate(i, j)} :: 0 <= i < |shards| && 0 <= j < |shards| ==> Separate(i, j))
      && (forall i {:trigger Holds(i, cs[i])} :: 0 <= i < |shards| ==> Holds(i, cs[i]))
    }

    /** The shard count is a power of two, as nextPowerOf2 means it to be. */
    ghost predicate Rounded() {
      exists n :: ShardIndex.LeastPowerOf2(|shards|, n)
    }

    /** getShard: any count gives an index in range, and a power of two gives the hash modulo the count. */
    method GetShard(key: string) returns (i: nat)
      requires |shards| > 0
      ensures i == Router()(key) < |shards|
      ensures Rounded() ==> i == hash(key) % |shards|
    {
      i := ShardIndex.Index(hash(key), |shards|);
      if Rounded() {
        ghost var n :| ShardIndex.LeastPowerOf2(|shards|, n);
        ShardIndex.MaskIsModulo(hash(key), |shards|, n);
      }
    }

    lemma RoutesAll()
      requires |shards| > 0
      ensures C.Routes(Router(), |shards|)
    {
      forall key: string
        ensures Router()(key) < |shards|
      {
        assert Router()(key) == ShardIndex.Index(hash(key), |shards|);
      }
    }

    /** One operation under the lock of shard i leaves every other shard alone. */
    method OnShard(i: nat, op: M.Op, ghost cs: seq<M.Shard>) returns (hit: Option<M.Hit>, evicted: int)
      requires i < |shards| && Represents(cs) && !op.ClearOp?
      modifies shards[i], shards[i].repr
      ensures Represents(cs[i := M.Step(threshold, cs[i], op)])
      ensures op.GetOp? ==> hit == M.Get(cs[i], op.key, op.now).1
      ensures evicted == M.Step(threshold, cs[i], op).evictions - cs[i].evictions
      ensures fresh(shards[i].repr - old(shards[i].repr))
      ensures forall j :: 0 <= j < |shards| && j != i ==> shards[j].repr == old(shards[j].repr)
    {
      assert Holds(i, cs[i]);
      hit, evicted := Dispatch(shards[i], op, cs[i]);
      ghost var cs' := cs[i := M.Step(threshold, cs[i], op)];
      forall j | 0 <= j < |shards|
        ensures Holds(j, cs'[j]) && (j != i ==> shards[j].repr == old(shards[j].repr))
      {
        assert old(Holds(j, cs[j]));
        assert old(Separate(i, j));
      }
      forall j, k | 0 <= j < |shards| && 0 <= k < |shards|
        ensures Separate(j, k)
      {
        assert old(Separate(j, k)) && old(Separate(i, j)) && old(Separate(i, k));
      }
    }

    twostate lemma Grows(i: nat)
      requires i < |shards| && fresh(shards[i].repr - old(shards[i].repr))
      requires forall j :: 0 <= j < |shards| && j != i ==> shards[j].repr == old(shards[j].repr)
      ensures fresh(Footprint() - old(Footprint()))
    {
    }

    static method Dispatch(shard: Shard, op: M.Op, ghost m: M.Shard) returns (hit: Option<M.Hit>, evicted: int)
      requires shard.Represents(m) && !op.ClearOp?
      modifies shard, shard.repr
      ensures shard.Represents(M.Step(shard.threshold, m, op))
      ensures op.GetOp? ==> hit == M.Get(m, op.key, op.now).1
      ensures evicted == M.Step(shard.threshold, m, op).evictions - m.evictions
      ensures shard.repr >= old(shard.repr) && fresh(shard.repr - old(shard.repr))
    {
      hit := None;
      var before := shard.evictions;
      match op {
        case GetOp(key, now) => hit := shard.Get(key, now, m);
        case SetOp(key, content, ttl, now) => shard.Set(key, content, ttl, now, m);
        case DeleteOp(key) => shard.Delete(key, m);
      }
      evicted := shard.evictions - before;
    }

    method Get(key: string, now: int, ghost cs: seq<M.Shard>) returns (hit: Option<M.Hit>)
      requires |shards| > 0 && Represents(cs)
      modifies this, shards, Footprint()
      ensures C.Routes(Router(), |shards|)
      ensures Represents(C.Step(threshold, Router(), cs, M.GetOp(key, now))) && fresh(Footprint() - old(Footprint()))
      ensures hit == M.Get(cs[Router()(key)], key, now).1
      ensures totalHits == old(totalHits) + (if hit.Some? then 1 else 0)
      ensures totalMisses == old(totalMisses) + (if hit.None? then 1 else 0)
    {
      RoutesAll();
      var i := GetShard(key);
      ghost var none;
      hit, none := OnShard(i, M.GetOp(key, now), cs);
      Grows(i);
      Tally(hit.Some?);
    }

    method Tally(found: bool)
      modifies this`totalHits, this`totalMisses
      ensures totalHits == old(totalHits) + (if found then 1 else 0)
      ensures totalMisses == old(totalMisses) + (if found then 0 else 1)
    {
      if found {
        totalHits := totalHits + 1;
      } else {
        totalMisses := totalMisses + 1;
      }
    }

    method Set(key: string, content: M.Content, ttl: int, now: int, ghost cs: seq<M.Shard>)
      requires |shards| > 0 && Represents(cs)
      modifies this, shards, Footprint()
      ensures C.Routes(Router(), |shards|)
      ensures Represents(C.Step(threshold, Router(), cs, M.SetOp(key, content, ttl, now)))
      ensures fresh(Footprint() - old(Footprint()))
      ensures totalSets == old(totalSets) + 1
      ensures var m := cs[Router()(key)];
              totalEvictions - old(totalEvictions)
                  == M.Set(threshold, m, key, content, ttl, now).evictions - m.evictions
    {
      RoutesAll();
      var i := GetShard(key);
      var _, evicted := OnShard(i, M.SetOp(key, content, ttl, now), cs);
      Grows(i);
      TallySet(evicted);
    }

    method TallySet(evicted: int)
      modifies this`totalSets, this`totalEvictions
      ensures totalSets == old(totalSets) + 1 && totalEvictions == old(totalEvictions) + evicted
    {
      totalSets := totalSets + 1;
      totalEvictions := totalEvictions + evicted;
    }

    method Delete(key: string, ghost cs: seq<M.Shard>)
      requires |shards| > 0 && Represents(cs)
      modifies this, shards, Footprint()
      ensures C.Routes(Router(), |shards|)
      ensures Represents(C.Step(threshold, Router(), cs, M.DeleteOp(key))) && fresh(Footprint() - old(Footprint()))
    {
      RoutesAll();
      var i := GetShard(key);
      var _, _ := OnShard(i, M.DeleteOp(key), cs);
      Grows(i);
    }

    method ClearAt(i: nat, ghost cs: seq<M.Shard>)
      requires i < |shards| && Represents(cs)
      modifies shards[i]
      ensures Represents(cs[i := M.Clear(cs[i])])
      ensures Footprint() <= old(Footprint())
    {
      assert Holds(i, cs[i]);
      shards[i].Clear(cs[i]);
      ghost var cs' := cs[i := M.Clear(cs[i])];
      forall j | 0 <= j < |shards|
        ensures Holds(j, cs'[j])
      {
        assert old(Holds(j, cs[j]));
        assert old(Separate(i, j));
      }
      forall j, k | 0 <= j < |shards| && 0 <= k < |shards|
        ensures Separate(j, k)
      {
        assert old(Separate(j, k)) && old(Separate(i, j)) && old(Separate(i, k));
      }
    }

    method Clear(ghost cs: seq<M.Shard>)
      requires |shards| > 0 && C.Routes(Router(), |shards|) && Represents(cs)
      modifies this, shards
      ensures Represents(C.Step(threshold, Router(), cs, M.ClearOp)) && Footprint() <= old(Footprint())
      ensures totalHits == totalMisses == totalSets == totalEvictions == 0
    {
      ghost var now := cs;
      for i := 0 to |shards|
        invariant Represents(now) && Footprint() <= old(Footprint())
        invariant forall j :: 0 <= j < |shards| ==> now[j] == if j < i then M.Clear(cs[j]) else cs[j]
      {
        ClearAt(i, now);
        now := now[i := M.Clear(now[i])];
      }
      assert now == C.Step(threshold, Router(), cs, M.ClearOp);
      totalHits, totalMisses, totalSets, totalEvictions := 0, 0, 0, 0;
    }

    /** Any one operation; hit is what a Get answers. */
    method Apply(op: M.Op, ghost cs: seq<M.Shard>) returns (hit: Option<M.Hit>)
      requires |shards| > 0 && Represents(cs)
      modifies this, shards, Footprint()
      ensures C.Routes(Router(), |shards|) && Represents(C.Step(threshold, Router(), cs, op))
      ensures hit == if op.GetOp? then M.Get(cs[Router()(op.key)], op.key, op.now).1 else None
      ensures fresh(Footprint() - old(Footprint()))
    {
      RoutesAll();
      hit := None;
      match op {
        case GetOp(key, now) => hit := Get(key, now, cs);
        case SetOp(key, content, ttl, now) => Set(key, content, ttl, now, cs);
        case DeleteOp(key) => Delete(key, cs);
        case ClearOp => Clear(cs);
      }
    }
  }
}
