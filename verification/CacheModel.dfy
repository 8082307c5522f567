/**
 The whole sharded cache as a sequence of abstract shards, and its agreement with a flat TTL map that never evicts:
 the meaning of InMemoryCache.
 */
module CacheModel {
  import opened Base
  import M = ShardModel

  /** Sends every key to the index of its shard. */
  type Route = string -> nat

  function Step(threshold: int, route: Route, c: seq<M.Shard>, op: M.Op): (r: seq<M.Shard>)
    requires forall k :: route(k) < |c|
    ensures |r| == |c|
  {
    if op.ClearOp? then seq(|c|, i requires 0 <= i < |c| => M.Clear(c[i]))
    else c[route(op.key) := M.Step(threshold, c[route(op.key)], op)]
  }

  ghost predicate Routes(route: Route, count: nat) {
    forall k :: route(k) < count
  }

  ghost function Run(threshold: int, route: Route, count: nat, ops: seq<M.Op>): (c: seq<M.Shard>)
    requires Routes(route, count)
    ensures |c| == count
  {
    if ops == [] then seq(count, i => M.EMPTY_SHARD)
    else Step(threshold, route, Run(threshold, route, count, ops[..|ops| - 1]), ops[|ops| - 1])
  }

  /** The operations of a run that reach shard i: those on its keys, and Clear. */
  function Reaching(route: Route, i: nat, ops: seq<M.Op>): seq<M.Op> {
    if ops == [] then []
    else
      var rest := Reaching(route, i, ops[..|ops| - 1]);
      var op := ops[|ops| - 1];
      if op.ClearOp? || route(op.key) == i then rest + [op] else rest
  }

  /**
   Each shard lives the run of its own operations, so what holds over shard runs holds of every shard of the cache.
   */
  lemma {:induction false} ShardRun(threshold: int, route: Route, count: nat, ops: seq<M.Op>, i: nat)
    requires Routes(route, count) && i < count
    ensures Run(threshold, route, count, ops)[i] == M.Run(threshold, Reaching(route, i, ops))
  {
    if ops != [] {
      var rest := Reaching(route, i, ops[..|ops| - 1]);
      ShardRun(threshold, route, count, ops[..|ops| - 1], i);
      assert (rest + [ops[|ops| - 1]])[..|rest|] == rest;
    }
  }

  // ---------- the flat TTL map ----------

  datatype FlatEntry = FlatEntry(content: M.Content, expiresAt: int)

  type Flat = map<string, FlatEntry>

  function FlatGet(f: Flat, key: string, now: int): (Flat, Option<FlatEntry>) {
    if key !in f then (f, None)
    else if now > f[key].expiresAt then (f - {key}, None)
    else (f, Some(f[key]))
  }

  function FlatStep(f: Flat, op: M.Op): Flat {
    match op
    case GetOp(key, now) => FlatGet(f, key, now).0
    case SetOp(key, content, ttl, now) => f[key := FlatEntry(content, now + ttl)]
    case DeleteOp(key) => f - {key}
    case ClearOp => map[]
  }

  function FlatRun(ops: seq<M.Op>): Flat {
    if ops == [] then map[]
    else FlatStep(FlatRun(ops[..|ops| - 1]), ops[|ops| - 1])
  }

  /** Whether op takes out what is stored for key, or puts something else there. */
  predicate Replaces(op: M.Op, key: string) {
    op.ClearOp? || ((op.SetOp? || op.DeleteOp?) && op.key == key)
  }

  /** The n-th operation set key, and nothing since replaced the entry or found it expired. */
  ghost predicate StandsFrom(ops: seq<M.Op>, key: string, n: nat) {
    && n < |ops| && ops[n].SetOp? && ops[n].key == key
    && forall j :: n < j < |ops| ==>
         !Replaces(ops[j], key) && !(ops[j].GetOp? && ops[j].key == key && ops[j].now > ops[n].now + ops[n].ttl)
  }

  lemma {:induction false} Stored(ops: seq<M.Op>, key: string, n: nat)
    requires StandsFrom(ops, key, n)
    ensures key in FlatRun(ops) && FlatRun(ops)[key] == FlatEntry(ops[n].content, ops[n].now + ops[n].ttl)
    decreases |ops|
  {
    var k := |ops| - 1;
    if n < k {
      assert StandsFrom(ops[..k], key, n);
      Stored(ops[..k], key, n);
    }
  }

  lemma {:induction false} StoredBy(ops: seq<M.Op>, key: string) returns (n: nat)
    requires key in FlatRun(ops)
    ensures StandsFrom(ops, key, n)
  {
    var k := |ops| - 1;
    if Replaces(ops[k], key) {
      n := k;
    } else {
      n := StoredBy(ops[..k], key);
      Stored(ops[..k], key, n);
    }
  }

  /**
   What the flat map means: a Get finds the last entry Set for key, if that was not deleted or cleared since, no Get
   found it expired, and it is not over now; and it finds nothing otherwise.
   */
  lemma FlatMeaning(ops: seq<M.Op>, key: string, now: int)
    ensures forall n: nat :: StandsFrom(ops, key, n) && now <= ops[n].now + ops[n].ttl ==>
              FlatGet(FlatRun(ops), key, now).1 == Some(FlatEntry(ops[n].content, ops[n].now + ops[n].ttl))
    ensures FlatGet(FlatRun(ops), key, now).1.Some? ==>
              exists n: nat :: StandsFrom(ops, key, n) && now <= ops[n].now + ops[n].ttl
  {
    forall n: nat | StandsFrom(ops, key, n) && now <= ops[n].now + ops[n].ttl
      ensures FlatGet(FlatRun(ops), key, now).1 == Some(FlatEntry(ops[n].content, ops[n].now + ops[n].ttl))
    {
      Stored(ops, key, n);
    }
    if FlatGet(FlatRun(ops), key, now).1.Some? {
      var n := StoredBy(ops, key);
      Stored(ops, key, n);
    }
  }

  // ---------- agreement ----------

  /** The keys that evictLRU removed after they were last Set. */
  ghost function Evicted(threshold: int, route: Route, count: nat, ops: seq<M.Op>): set<string>
    requires Routes(route, count)
  {
    if ops == [] then {}
    else
      var before := ops[..|ops| - 1];
      match ops[|ops| - 1]
      case SetOp(key, _, _, _) =>
        var m := Run(threshold, route, count, before)[route(key)];
        Evicted(threshold, route, count, before) + (m.store.Keys - M.EvictIfFull(threshold, m).store.Keys) - {key}
      case _ => Evicted(threshold, route, count, before)
  }

  /** Shard i holds what the flat map holds for its keys, less the evicted ones. */
  ghost predicate Agree(route: Route, f: Flat, m: M.Shard, evicted: set<string>, i: nat) {
    && (forall k :: k in m.store ==>
          route(k) == i && k !in evicted && k in f && f[k] == FlatEntry(m.store[k].content, m.store[k].expiresAt))
    && (forall k :: k in f && route(k) == i && k !in evicted ==> k in m.store)
  }

  lemma AgreeSet(threshold: int, route: Route, f: Flat, m: M.Shard, evicted: set<string>,
                 key: string, content: M.Content, ttl: int, now: int)
    requires Agree(route, f, m, evicted, route(key)) && M.Consistent(m)
    ensures var op := M.SetOp(key, content, ttl, now);
            var evicted' := evicted + (m.store.Keys - M.EvictIfFull(threshold, m).store.Keys) - {key};
            Agree(route, FlatStep(f, op), M.Step(threshold, m, op), evicted', route(key))
  {
    var e := M.EvictIfFull(threshold, m);
    assert forall k :: k in e.store ==> k in m.store && e.store[k] == m.store[k];
    var d := M.Delete(e, key);
    assert forall k :: k in d.store <==> k in e.store && k != key;
    assert forall k :: k in d.store ==> d.store[k] == e.store[k];
  }

  lemma AgreeOther(threshold: int, route: Route, f: Flat, m: M.Shard, evicted: set<string>, op: M.Op)
    requires op.GetOp? || op.DeleteOp?
    requires Agree(route, f, m, evicted, route(op.key))
    ensures Agree(route, FlatStep(f, op), M.Step(threshold, m, op), evicted, route(op.key))
  {
  }

  lemma {:induction false} Agreement(threshold: int, route: Route, count: nat, ops: seq<M.Op>, i: nat)
    requires Routes(route, count) && i < count
    ensures Agree(route, FlatRun(ops), Run(threshold, route, count, ops)[i], Evicted(threshold, route, count, ops), i)
  {
    if ops != [] {
      var before, op := ops[..|ops| - 1], ops[|ops| - 1];
      var c := Run(threshold, route, count, before);
      Agreement(threshold, route, count, before, i);
      if op.SetOp? {
        var m := c[route(op.key)];
        Agreement(threshold, route, count, before, route(op.key));
        if route(op.key) == i {
          ShardRun(threshold, route, count, before, i);
          M.RunConsistent(threshold, Reaching(route, i, before));
          AgreeSet(threshold, route, FlatRun(before), m, Evicted(threshold, route, count, before),
                   op.key, op.content, op.ttl, op.now);
        }
      } else if !op.ClearOp? && route(op.key) == i {
        AgreeOther(threshold, route, FlatRun(before), c[i], Evicted(threshold, route, count, before), op);
      }
    }
  }

  /** The hit carries the body, header, tag, status and expiry of the flat entry. */
  predicate Serves(hit: M.Hit, flat: FlatEntry) {
    && hit.body == flat.content.body && hit.header == flat.content.header && hit.etag == flat.content.etag
    && hit.statusCode == M.StoredStatus(flat.content) && hit.expiresAt == flat.expiresAt && !hit.isStale
  }

  /** A key lives only in its own shard. */
  lemma {:induction false} HomeOnly(threshold: int, route: Route, count: nat, ops: seq<M.Op>, i: nat, key: string)
    requires Routes(route, count) && i < count && key in Run(threshold, route, count, ops)[i].store
    ensures route(key) == i
  {
    Agreement(threshold, route, count, ops, i);
  }

  /** No shard ever holds more than max(1, T - its expired removals since the last Clear) entries. */
  lemma ShardBound(threshold: int, route: Route, count: nat, ops: seq<M.Op>, i: nat, m: M.Shard, mine: seq<M.Op>)
    requires Routes(route, count) && i < count
    requires m == Run(threshold, route, count, ops)[i] && mine == Reaching(route, i, ops)
    ensures |m.store| <= Max(1, threshold - M.ExpiredSinceClear(threshold, mine))
  {
    M.Residency(threshold, mine);
    assert m == M.Run(threshold, mine) by { ShardRun(threshold, route, count, ops, i); }
  }

  /**
   After any run of both caches in step, a hit of the optimized cache returns what the flat map returns, and it misses
   where the flat map hits exactly on the keys that evictLRU removed after they were last Set.
   */
  lemma GetsAgree(threshold: int, route: Route, count: nat, ops: seq<M.Op>, key: string, now: int)
    requires Routes(route, count)
    ensures var hit := M.Get(Run(threshold, route, count, ops)[route(key)], key, now).1;
            var flat := FlatGet(FlatRun(ops), key, now).1;
            && (hit.Some? ==> flat.Some? && Serves(hit.value, flat.value))
            && (flat.Some? ==> (hit.None? <==> key in Evicted(threshold, route, count, ops)))
  {
    Agreement(threshold, route, count, ops, route(key));
  }

  /**
   The plain cache hands back the entry itself, the optimized one reports the status of the entry's response: on a hit
   the two show the same status exactly if the entry carries no response or one with that status.
   */
  lemma StatusAgrees(threshold: int, route: Route, count: nat, ops: seq<M.Op>, key: string, now: int)
    requires Routes(route, count)
    requires M.Get(Run(threshold, route, count, ops)[route(key)], key, now).1.Some?
    ensures var flat := FlatGet(FlatRun(ops), key, now).1;
            && flat.Some?
            && (M.Get(Run(threshold, route, count, ops)[route(key)], key, now).1.value.statusCode
                == flat.value.content.statusCode
                <==> flat.value.content.response == None
                     || flat.value.content.response == Some(flat.value.content.statusCode))
  {
    GetsAgree(threshold, route, count, ops, key, now);
  }

  // ---------- when entries are evicted ----------

  /** op is a Set of another key that finds the shard of key full and key its least recently touched resident. */
  ghost predicate Drops(threshold: int, route: Route, count: nat, before: seq<M.Op>, op: M.Op, key: string)
    requires Routes(route, count)
  {
    var m, mine := Run(threshold, route, count, before)[route(key)], Reaching(route, route(key), before);
    && op.SetOp? && op.key != key && route(op.key) == route(key)
    && m.size >= threshold && key in m.store
    && forall k :: k in m.store && k != key ==> M.LastTouch(threshold, mine, k) > M.LastTouch(threshold, mine, key)
  }

  /** The keys that a Set finding m drops. */
  lemma DropsOldest(threshold: int, m: M.Shard, mine: seq<M.Op>, key: string)
    requires m == M.Run(threshold, mine)
    ensures key in m.store && key !in M.EvictIfFull(threshold, m).store
            <==> && m.size >= threshold && key in m.store
                 && forall k :: k in m.store && k != key ==>
                      M.LastTouch(threshold, mine, k) > M.LastTouch(threshold, mine, key)
  {
    M.RunConsistent(threshold, mine);
    if m.size >= threshold && key in m.store {
      var oldest := M.Oldest(m);
      M.EvictsLeastRecentlyTouched(threshold, mine, oldest);
    }
  }

  lemma EvictedStep(threshold: int, route: Route, count: nat, before: seq<M.Op>, op: M.Op, key: string)
    requires Routes(route, count)
    ensures key in Evicted(threshold, route, count, before + [op])
            <==> (key in Evicted(threshold, route, count, before) && !(op.SetOp? && op.key == key))
                 || Drops(threshold, route, count, before, op, key)
  {
    assert (before + [op])[..|before|] == before;
    if op.SetOp? {
      var i := route(op.key);
      var m, mine := Run(threshold, route, count, before)[i], Reaching(route, i, before);
      ShardRun(threshold, route, count, before, i);
      DropsOldest(threshold, m, mine, key);
      if key in m.store { HomeOnly(threshold, route, count, before, i, key); }
    }
  }

  predicate SetsLater(ops: seq<M.Op>, n: nat, key: string) {
    exists j :: n < j < |ops| && ops[j].SetOp? && ops[j].key == key
  }

  ghost predicate DroppedAt(threshold: int, route: Route, count: nat, ops: seq<M.Op>, key: string, n: nat)
    requires Routes(route, count)
  {
    n < |ops| && Drops(threshold, route, count, ops[..n], ops[n], key) && !SetsLater(ops, n, key)
  }

  /**
   The evicted keys are those that some Set of another key found least recently touched in a full shard, and that were
   not Set since.
   */
  lemma {:induction false} EvictedExactly(threshold: int, route: Route, count: nat, ops: seq<M.Op>, key: string)
    requires Routes(route, count)
    ensures key in Evicted(threshold, route, count, ops)
            <==> exists n: nat :: DroppedAt(threshold, route, count, ops, key, n)
  {
    if ops != [] {
      var k := |ops| - 1;
      var before, op := ops[..k], ops[k];
      assert before + [op] == ops;
      EvictedStep(threshold, route, count, before, op, key);
      EvictedExactly(threshold, route, count, before, key);
      forall n: nat | n < k
        ensures DroppedAt(threshold, route, count, ops, key, n)
                <==> DroppedAt(threshold, route, count, before, key, n) && !(op.SetOp? && op.key == key)
      {
        DroppedBefore(threshold, route, count, before, op, key, n);
      }
      assert DroppedAt(threshold, route, count, ops, key, k) <==> Drops(threshold, route, count, before, op, key);
    }
  }

  lemma DroppedBefore(threshold: int, route: Route, count: nat, before: seq<M.Op>, op: M.Op, key: string, n: nat)
    requires Routes(route, count) && n < |before|
    ensures DroppedAt(threshold, route, count, before + [op], key, n)
            <==> DroppedAt(threshold, route, count, before, key, n) && !(op.SetOp? && op.key == key)
  {
    var ops := before + [op];
    assert ops[..n] == before[..n];
    if SetsLater(before, n, key) {
      var j :| n < j < |before| && before[j].SetOp? && before[j].key == key;
      assert ops[j] == before[j];
    }
    if op.SetOp? && op.key == key { assert ops[|before|] == op; }
  }

  /** No Set of the run found its shard full. */
  ghost predicate NeverFull(threshold: int, route: Route, count: nat, ops: seq<M.Op>)
    requires Routes(route, count)
  {
    forall n: nat {:trigger ops[n]} :: n < |ops| && ops[n].SetOp? ==>
      Run(threshold, route, count, ops[..n])[route(ops[n].key)].size < threshold
  }

  /** A cache no shard of which ever fills up is the flat map: every Get hits both or neither, with the same entry. */
  lemma NeverFullIsFlat(threshold: int, route: Route, count: nat, ops: seq<M.Op>, key: string, now: int)
    requires Routes(route, count) && NeverFull(threshold, route, count, ops)
    ensures var hit := M.Get(Run(threshold, route, count, ops)[route(key)], key, now).1;
            var flat := FlatGet(FlatRun(ops), key, now).1;
            (hit.Some? <==> flat.Some?) && (hit.Some? ==> Serves(hit.value, flat.value))
  {
    EvictedExactly(threshold, route, count, ops, key);
    forall n: nat
      ensures !DroppedAt(threshold, route, count, ops, key, n)
    {
      if n < |ops| { var op := ops[n]; }
    }
    GetsAgree(threshold, route, count, ops, key, now);
  }
}
