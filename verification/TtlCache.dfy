/** The sharded TTL cache of cache.go. Set stamps the expiry on the caller's own entry object and stores that object. */
module TtlCache {
  import opened Base
  import M = ShardModel
  import C = CacheModel

  class CacheEntry {
    const content: M.Content
    var expiresAt: int

    constructor (content: M.Content)
      ensures this.content == content
    {
      this.content := content;
    }
  }

  class Shard {
    var store: map<string, CacheEntry>

    constructor ()
      ensures store == map[]
    {
      store := map[];
    }
  }

  class InMemoryCache {
    const shards: seq<Shard>
    const hash: string -> nat  // FNV-1a over 32 bits
    ghost var refs: map<string, CacheEntry>  // the union of the shards

    // getShard
    function Home(key: string): (i: nat)
      requires |shards| == 16
      ensures i < 16
    {
      hash(key) % 16
    }

    ghost function Part(all: map<string, CacheEntry>, i: nat): map<string, CacheEntry>
      requires |shards| == 16
    {
      map k | k in all && Home(k) == i :: all[k]
    }

    ghost predicate Apart(i: nat, j: nat)
      requires |shards| == 16 && i < 16 && j < 16
    {
      i != j ==> shards[i] != shards[j]
    }

    ghost predicate Filed(i: nat)
      requires |shards| == 16 && i < 16
      reads this, shards[i]
    {
      shards[i].store == Part(refs, i)
    }

    /** There are 16 shards, and each holds exactly the part of refs that hashes to it. */
    ghost predicate Valid()
      reads this, shards
    {
      && |shards| == 16
      && (forall i: nat, j: nat {:trigger Apart(i, j)} :: i < 16 && j < 16 ==> Apart(i, j))
      && (forall i: nat {:trigger Filed(i)} :: i < 16 ==> Filed(i))
    }

    /** The cache as one flat TTL map. */
    ghost function Flat(): C.Flat
      reads this, refs.Values
    {
      map k | k in refs :: C.FlatEntry(refs[k].content, refs[k].expiresAt)
    }

    constructor (hash: string -> nat)
      ensures Valid() && Flat() == map[] && this.hash == hash && fresh(shards)
    {
      var made: seq<Shard> := [];
      for i := 0 to 16
        invariant |made| == i && fresh(made)
        invariant forall j :: 0 <= j < i ==> made[j].store == map[]
        invariant NoDuplicates(made)
      {
        var shard := new Shard();
        assert shard !in made;
        made := made + [shard];
      }
      shards, this.hash, refs := made, hash, map[];
    }

    /** delete(shard.store, key) */
    method Drop(key: string)
      requires Valid()
      modifies this`refs, shards[Home(key)]
      ensures Valid() && refs == old(refs) - {key}
    {
      var h := Home(key);
      assert Filed(h);
      shards[h].store := shards[h].store - {key};
      refs := refs - {key};
      forall i: nat | i < 16
        ensures Filed(i)
      {
        assert old(Filed(i)) && Apart(i, h);
        assert Part(refs, i) == if i == h then Part(old(refs), i) - {key} else Part(old(refs), i);
      }
    }

    /** shard.store[key] = entry */
    method Put(key: string, entry: CacheEntry)
      requires Valid()
      modifies this`refs, shards[Home(key)]
      ensures Valid() && refs == old(refs)[key := entry]
    {
      var h := Home(key);
      assert Filed(h);
      shards[h].store := shards[h].store[key := entry];
      refs := refs[key := entry];
      forall i: nat | i < 16
        ensures Filed(i)
      {
        assert old(Filed(i)) && Apart(i, h);
        assert Part(refs, i) == if i == h then Part(old(refs), i)[key := entry] else Part(old(refs), i);
      }
    }

    method Get(key: string, now: int) returns (entry: CacheEntry?)
      requires Valid()
      modifies this`refs, shards[Home(key)]
      ensures Valid() && Flat() == C.FlatGet(old(Flat()), key, now).0
      ensures entry == null <==> C.FlatGet(old(Flat()), key, now).1.None?
      ensures entry != null ==>
                && C.FlatEntry(entry.content, entry.expiresAt) == C.FlatGet(old(Flat()), key, now).1.value
                && key in refs && entry == refs[key]
    {
      var shard := shards[Home(key)];
      assert Filed(Home(key));
      if key !in shard.store {
        return null;
      }
      entry := shard.store[key];
      if now > entry.expiresAt {
        Drop(key);
        return null;
      }
    }

    /**
     Set acts as the flat map's Set exactly when no other key already holds the same entry object with another expiry;
     an object reused under a second key drags the first key's expiry along.
     */
    method Set(key: string, entry: CacheEntry, ttl: int, now: int)
      requires Valid()
      modifies this`refs, shards[Home(key)], entry
      ensures Valid() && refs == old(refs)[key := entry] && entry.expiresAt == now + ttl
      ensures Flat() == C.FlatStep(old(Flat()), M.SetOp(key, entry.content, ttl, now))
              <==> forall k :: k in old(refs) && k != key && old(refs)[k] == entry ==> old(entry.expiresAt) == now + ttl
    {
      entry.expiresAt := now + ttl;
      Put(key, entry);
      ghost var expected := C.FlatStep(old(Flat()), M.SetOp(key, entry.content, ttl, now));
      assert Flat().Keys == expected.Keys;
      forall k | k in refs && k != key
        ensures Flat()[k] == expected[k] <==> (refs[k] == entry ==> old(entry.expiresAt) == now + ttl)
      {
        assert expected[k] == old(Flat())[k];
      }
      if Flat() == expected {
        forall k | k in old(refs) && k != key && old(refs)[k] == entry
          ensures old(entry.expiresAt) == now + ttl
        {
          assert k in refs && refs[k] == entry;
        }
      } else {
        ghost var k :| k in refs && Flat()[k] != expected[k];
        assert k in old(refs) && k != key && old(refs)[k] == entry;
      }
    }

    method Delete(key: string)
      requires Valid()
      modifies this`refs, shards[Home(key)]
      ensures Valid() && Flat() == C.FlatStep(old(Flat()), M.DeleteOp(key))
    {
      Drop(key);
    }

    method Clear()
      requires Valid()
      modifies this`refs, shards
      ensures Valid() && Flat() == C.FlatStep(old(Flat()), M.ClearOp)
    {
      for i := 0 to 16
        invariant forall j :: 0 <= j < i ==> shards[j].store == map[]
      {
        shards[i].store := map[];
      }
      refs := map[];
      assert forall i: nat :: i < 16 ==> Filed(i);
    }

    /** Any one operation, a Set with an entry object of its own; found is what a Get answers. */
    method Apply(op: M.Op) returns (found: Option<C.FlatEntry>)
      requires Valid()
      modifies this`refs, shards
      ensures Valid() && Flat() == C.FlatStep(old(Flat()), op)
      ensures found == if op.GetOp? then C.FlatGet(old(Flat()), op.key, op.now).1 else None
    {
      found := None;
      match op {
        case GetOp(key, now) =>
          var entry := Get(key, now);
          if entry != null {
            found := Some(C.FlatEntry(entry.content, entry.expiresAt));
          }
        case SetOp(key, content, ttl, now) =>
          var entry := new CacheEntry(content);
          Set(key, entry, ttl, now);
        case DeleteOp(key) => Delete(key);
        case ClearOp => Clear();
      }
    }
  }

  /** The flat map after one content is set under two keys, the second time with a longer ttl. */
  function SetTwice(content: M.Content, now: int): C.Flat {
    C.FlatRun([M.SetOp("a", content, 1, now), M.SetOp("b", content, 5, now)])
  }

  lemma SetTwiceExpires(content: M.Content, now: int)
    ensures C.FlatGet(SetTwice(content, now), "a", now + 3).1 == None
  {
    var first, second := M.SetOp("a", content, 1, now), M.SetOp("b", content, 5, now);
    assert [first, second][..1] == [first] && [first][..0] == [];
    assert C.FlatRun([first]) == C.FlatStep(C.FlatRun([]), first);
  }

  /** What the cache holds when the contents are of one and the same entry object. */
  method SetShared(content: M.Content, now: int, hash: string -> nat) returns (cache: InMemoryCache)
    ensures fresh(cache) && fresh(cache.shards) && cache.Valid()
    ensures cache.Flat() == map["a" := C.FlatEntry(content, now + 5), "b" := C.FlatEntry(content, now + 5)]
  {
    cache := new InMemoryCache(hash);
    assert cache.refs == map[] by { assert cache.Flat().Keys == cache.refs.Keys; }
    var entry := new CacheEntry(content);
    cache.Set("a", entry, 1, now);
    assert cache.refs == map["a" := entry];
    cache.Set("b", entry, 5, now);
    assert cache.refs == map["a" := entry, "b" := entry];
  }

  /**
   One entry object set under "a" for 1 and then under "b" for 5 leaves both keys expiring at 5: at time 3 the cache
   still answers for "a", where the flat map no longer does.
   */
  method SharedEntry(content: M.Content, now: int, hash: string -> nat) returns (found: Option<C.FlatEntry>)
    ensures found == Some(C.FlatEntry(content, now + 5))
    ensures C.FlatGet(SetTwice(content, now), "a", now + 3).1 == None
  {
    var cache := SetShared(content, now, hash);
    found := cache.Apply(M.GetOp("a", now + 3));
    SetTwiceExpires(content, now);
  }
}
