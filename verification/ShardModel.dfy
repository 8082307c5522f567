/**
 The abstract value of one OptimizedCache shard: a map of live items and the recency sequence of its keys,
 most recent first. The heap implementation in OptimizedCache refines these functions; the lemmas here say
 what they mean over every run.
 */
module ShardModel {
  import opened Base

  /** What a caller hands to Set. Bodies, headers and tags are opaque; the response counts only by its status. */
  datatype Content = Content(body: string, header: string, etag: string, statusCode: int, response: Option<int>)

  /** Set keeps the caller's response, or makes one carrying StatusCode when there is none. */
  function StoredStatus(c: Content): int {
    if c.response.Some? then c.response.value else c.statusCode
  }

  datatype Hit = Hit(body: string, header: string, etag: string, statusCode: int, expiresAt: int, isStale: bool)

  datatype Item = Item(content: Content, expiresAt: int, accessCount: int, lastAccess: int)

  function HitOf(i: Item): Hit {
    Hit(i.content.body, i.content.header, i.content.etag, StoredStatus(i.content), i.expiresAt, false)
  }

  datatype Shard = Shard(store: map<string, Item>, order: seq<string>, size: int, hits: int, misses: int,
      evictions: int)

  const EMPTY_SHARD := Shard(map[], [], 0, 0, 0, 0)

  /** The recency sequence lists every resident key once and nothing else. */
  ghost predicate Consistent(m: Shard) {
    && NoDuplicates(m.order)
    && |m.order| == |m.store|
    && forall k :: k in m.order <==> k in m.store
  }

  function Accessed(i: Item, now: int): Item {
    i.(accessCount := i.accessCount + 1, lastAccess := now)
  }

  function Get(m: Shard, key: string, now: int): (Shard, Option<Hit>) {
    if key !in m.store then
      (m.(misses := m.misses + 1), None)
    else if now > m.store[key].expiresAt then
      // the expired entry leaves the map and the list, but size is not decremented
      (m.(store := m.store - {key}, order := Without(m.order, key), misses := m.misses + 1), None)
    else
      var item := Accessed(m.store[key], now);
      var order := if item.accessCount % 10 == 0 then ToFront(m.order, key) else m.order;
      (m.(store := m.store[key := item], order := order, hits := m.hits + 1), Some(HitOf(item)))
  }

  function Evict(m: Shard): Shard {
    if m.order == [] then m
    else
      var last := |m.order| - 1;
      m.(store := m.store - {m.order[last]}, order := m.order[..last], size := m.size - 1, evictions := m.evictions + 1)
  }

  function EvictIfFull(threshold: int, m: Shard): Shard {
    if m.size >= threshold then Evict(m) else m
  }

  function Delete(m: Shard, key: string): Shard {
    if key in m.store then m.(store := m.store - {key}, order := Without(m.order, key), size := m.size - 1) else m
  }

  function Set(threshold: int, m: Shard, key: string, content: Content, ttl: int, now: int): Shard {
    var m' := Delete(EvictIfFull(threshold, m), key);
    m'.(store := m'.store[key := Item(content, now + ttl, 1, now)], order := [key] + m'.order, size := m'.size + 1)
  }

  function Clear(m: Shard): Shard {
    m.(store := map[], order := [], size := 0)
  }

  // ---------- runs ----------

  datatype Op =
    | GetOp(key: string, now: int)
    | SetOp(key: string, content: Content, ttl: int, now: int)
    | DeleteOp(key: string)
    | ClearOp

  function Step(threshold: int, m: Shard, op: Op): Shard {
    match op
    case GetOp(key, now) => Get(m, key, now).0
    case SetOp(key, content, ttl, now) => Set(threshold, m, key, content, ttl, now)
    case DeleteOp(key) => Delete(m, key)
    case ClearOp => Clear(m)
  }

  function Run(threshold: int, ops: seq<Op>): Shard {
    if ops == [] then EMPTY_SHARD
    else Step(threshold, Run(threshold, ops[..|ops| - 1]), ops[|ops| - 1])
  }

  lemma EvictConsistent(m: Shard)
    requires Consistent(m)
    ensures Consistent(Evict(m))
    ensures |Evict(m).store| == |m.store| - if m.order == [] then 0 else 1
  {
  }

  lemma DropKey(m: Shard, key: string, rest: seq<string>)
    requires Consistent(m) && key in m.store
    requires NoDuplicates(rest) && |rest| == |m.order| - 1
    requires forall k :: k in rest <==> k in m.order && k != key
    ensures Consistent(m.(store := m.store - {key}, order := rest))
    ensures |m.store - {key}| == |m.store| - 1
  {
  }

  lemma DropConsistent(m: Shard, key: string)
    requires Consistent(m) && key in m.store
    ensures Consistent(m.(store := m.store - {key}, order := Without(m.order, key)))
    ensures |m.store - {key}| == |m.store| - 1
  {
    WithoutElements(m.order, key);
    DropKey(m, key, Without(m.order, key));
  }

  lemma DeleteConsistent(m: Shard, key: string)
    requires Consistent(m)
    ensures Consistent(Delete(m, key)) && key !in Delete(m, key).store
    ensures |Delete(m, key).store| == |m.store| - if key in m.store then 1 else 0
  {
    if key in m.store { DropConsistent(m, key); }
  }

  lemma HitConsistent(m: Shard, key: string, item: Item, order: seq<string>)
    requires Consistent(m) && key in m.store
    requires NoDuplicates(order) && |order| == |m.order| && forall k :: k in order <==> k in m.order
    ensures Consistent(m.(store := m.store[key := item], order := order))
    ensures |m.store[key := item]| == |m.store|
  {
    assert m.store[key := item].Keys == m.store.Keys;
  }

  lemma GetConsistent(m: Shard, key: string, now: int)
    requires Consistent(m)
    ensures Consistent(Get(m, key, now).0)
    ensures |Get(m, key, now).0.store| == |m.store| - if key in m.store && now > m.store[key].expiresAt then 1 else 0
  {
    if key in m.store {
      if now > m.store[key].expiresAt {
        DropConsistent(m, key);
      } else {
        var item := Accessed(m.store[key], now);
        ToFrontElements(m.order, key);
        HitConsistent(m, key, item, if item.accessCount % 10 == 0 then ToFront(m.order, key) else m.order);
      }
    }
  }

  lemma PushConsistent(m: Shard, key: string, item: Item)
    requires Consistent(m) && key !in m.store
    ensures Consistent(m.(store := m.store[key := item], order := [key] + m.order))
    ensures |m.store[key := item]| == |m.store| + 1
  {
    assert m.store[key := item].Keys == m.store.Keys + {key};
  }

  lemma SetConsistent(threshold: int, m: Shard, key: string, content: Content, ttl: int, now: int)
    requires Consistent(m)
    ensures Consistent(Set(threshold, m, key, content, ttl, now))
    ensures |Set(threshold, m, key, content, ttl, now).store| == |Delete(EvictIfFull(threshold, m), key).store| + 1
  {
    EvictConsistent(m);
    var e := EvictIfFull(threshold, m);
    DeleteConsistent(e, key);
    PushConsistent(Delete(e, key), key, Item(content, now + ttl, 1, now));
  }

  lemma StepConsistent(threshold: int, m: Shard, op: Op)
    requires Consistent(m)
    ensures Consistent(Step(threshold, m, op))
  {
    match op
    case GetOp(key, now) => GetConsistent(m, key, now);
    case SetOp(key, content, ttl, now) => SetConsistent(threshold, m, key, content, ttl, now);
    case DeleteOp(key) => DeleteConsistent(m, key);
    case ClearOp =>
  }

  lemma {:induction false} RunConsistent(threshold: int, ops: seq<Op>)
    ensures Consistent(Run(threshold, ops))
  {
    if ops != [] {
      RunConsistent(threshold, ops[..|ops| - 1]);
      StepConsistent(threshold, Run(threshold, ops[..|ops| - 1]), ops[|ops| - 1]);
    }
  }

  // ---------- size and residency ----------

  /** Whether op is a Get that finds key resident but expired in m. */
  predicate Expires(m: Shard, op: Op) {
    op.GetOp? && op.key in m.store && op.now > m.store[op.key].expiresAt
  }

  /** How many entries the Gets of a run removed as expired since the last Clear. */
  function ExpiredSinceClear(threshold: int, ops: seq<Op>): nat {
    if ops == [] then 0
    else
      var before := ops[..|ops| - 1];
      var op := ops[|ops| - 1];
      if op.ClearOp? then 0
      else ExpiredSinceClear(threshold, before) + if Expires(Run(threshold, before), op) then 1 else 0
  }

  lemma SetResidency(threshold: int, m: Shard, key: string, content: Content, ttl: int, now: int)
    requires Consistent(m)
    ensures var m' := Set(threshold, m, key, content, ttl, now);
            && m'.size - |m'.store| == m.size - |m.store|
            && |m'.store| <= (if m.size >= threshold then Max(1, |m.store|) else |m.store| + 1)
  {
    EvictConsistent(m);
    var e := EvictIfFull(threshold, m);
    DeleteConsistent(e, key);
    SetConsistent(threshold, m, key, content, ttl, now);
  }

  lemma StepResidency(threshold: int, m: Shard, op: Op, expired: nat)
    requires Consistent(m)
    requires m.size == |m.store| + expired && |m.store| <= Max(1, threshold - expired)
    ensures var m' := Step(threshold, m, op);
            var expired' := if op.ClearOp? then 0 else expired + if Expires(m, op) then 1 else 0;
            m'.size == |m'.store| + expired' && |m'.store| <= Max(1, threshold - expired')
  {
    match op
    case GetOp(key, now) => GetConsistent(m, key, now);
    case SetOp(key, content, ttl, now) => SetResidency(threshold, m, key, content, ttl, now);
    case DeleteOp(key) => DeleteConsistent(m, key);
    case ClearOp =>
  }

  /**
   In every reachable state size = residents + expired removals since the last Clear, and the residents are at most
   max(1, T - expired): every expiry permanently takes one slot away until Clear, down to a single entry.
   */
  lemma {:induction false} Residency(threshold: int, ops: seq<Op>)
    ensures var m, expired := Run(threshold, ops), ExpiredSinceClear(threshold, ops);
            m.size == |m.store| + expired && |m.store| <= Max(1, threshold - expired)
  {
    if ops != [] {
      var before := ops[..|ops| - 1];
      Residency(threshold, before);
      RunConsistent(threshold, before);
      StepResidency(threshold, Run(threshold, before), ops[|ops| - 1], ExpiredSinceClear(threshold, before));
    }
  }

  // ---------- recency ----------

  /**
   Whether op makes key the most recent one: a Set of key, or a hit that brings its access count to a multiple of ten.
   */
  predicate Touches(m: Shard, op: Op, key: string) {
    match op
    case SetOp(k, _, _, _) => k == key
    case GetOp(k, now) =>
      k == key && k in m.store && now <= m.store[k].expiresAt && (m.store[k].accessCount + 1) % 10 == 0
    case _ => false
  }

  /** The position after the last operation of a run that touched key; 0 when none did. */
  function LastTouch(threshold: int, ops: seq<Op>, key: string): nat {
    if ops == [] then 0
    else if Touches(Run(threshold, ops[..|ops| - 1]), ops[|ops| - 1], key) then |ops|
    else LastTouch(threshold, ops[..|ops| - 1], key)
  }

  lemma {:induction false} LastTouchBound(threshold: int, ops: seq<Op>, key: string)
    ensures LastTouch(threshold, ops, key) <= |ops|
  {
    if ops != [] { LastTouchBound(threshold, ops[..|ops| - 1], key); }
  }

  /** The keys of s are listed by strictly decreasing rank. */
  ghost predicate Decreasing(rank: string -> int, s: seq<string>) {
    forall i, j :: 0 <= i < j < |s| ==> rank(s[i]) > rank(s[j])
  }

  lemma RemoveDecreasing(rank: string -> int, s: seq<string>, i: nat)
    requires i < |s| && Decreasing(rank, s)
    ensures Decreasing(rank, Cut(s, i))
  {
  }

  lemma WithoutDecreasing(rank: string -> int, s: seq<string>, key: string)
    requires NoDuplicates(s) && Decreasing(rank, s) && key in s
    ensures Decreasing(rank, Without(s, key))
  {
    RemoveDecreasing(rank, s, IndexOf(s, key));
  }

  /** The key an operation touches, if any. */
  function Touched(m: Shard, op: Op): Option<string> {
    if (op.SetOp? || op.GetOp?) && Touches(m, op, op.key) then Some(op.key) else None
  }

  /** order is the touched key, when there is one, followed by other keys in decreasing rank. */
  ghost predicate Pushed(rank: string -> int, touched: Option<string>, order: seq<string>) {
    if touched.None? then Decreasing(rank, order)
    else
      && order != [] && order[0] == touched.value && touched.value !in order[1..]
      && Decreasing(rank, order[1..])
  }

  lemma PushFront(rank: string -> int, key: string, rest: seq<string>)
    requires key !in rest && Decreasing(rank, rest)
    ensures Pushed(rank, Some(key), [key] + rest)
  {
    assert ([key] + rest)[1..] == rest;
  }

  lemma OrderAfterMove(rank: string -> int, order: seq<string>, key: string)
    requires NoDuplicates(order) && Decreasing(rank, order) && key in order
    ensures Pushed(rank, Some(key), ToFront(order, key))
  {
    WithoutDecreasing(rank, order, key);
    CutAt(order, IndexOf(order, key));
    PushFront(rank, key, Without(order, key));
  }

  /** What a Get does to the order: an expired key leaves it, a promoted one moves to its front. */
  lemma GetOrder(m: Shard, key: string, now: int)
    ensures var touched, order := Touched(m, GetOp(key, now)), Get(m, key, now).0.order;
            if key !in m.store then touched == None && order == m.order
            else if now > m.store[key].expiresAt then touched == None && order == Without(m.order, key)
            else if (m.store[key].accessCount + 1) % 10 == 0 then touched == Some(key) && order == ToFront(m.order, key)
            else touched == None && order == m.order
  {
  }

  lemma OrderAfterGet(rank: string -> int, m: Shard, key: string, now: int, order: seq<string>, touched: Option<string>)
    requires Consistent(m) && Decreasing(rank, m.order)
    requires order == Get(m, key, now).0.order && touched == Touched(m, GetOp(key, now))
    ensures Pushed(rank, touched, order)
  {
    GetOrder(m, key, now);
    if order != m.order || touched.Some? {
      assert key in m.order;
      if touched.Some? {
        OrderAfterMove(rank, m.order, key);
      } else {
        WithoutDecreasing(rank, m.order, key);
      }
    }
  }

  lemma OrderAfterDelete(rank: string -> int, m: Shard, key: string)
    requires Consistent(m) && Decreasing(rank, m.order)
    ensures Decreasing(rank, Delete(m, key).order) && key !in Delete(m, key).order
  {
    DeleteConsistent(m, key);
    if key in m.store { WithoutDecreasing(rank, m.order, key); }
  }

  lemma OrderAfterSet(rank: string -> int, threshold: int, m: Shard, key: string, content: Content, ttl: int, now: int)
    requires Consistent(m) && Decreasing(rank, m.order)
    ensures Pushed(rank, Some(key), Set(threshold, m, key, content, ttl, now).order)
  {
    EvictConsistent(m);
    var e := EvictIfFull(threshold, m);
    OrderAfterDelete(rank, e, key);
    PushFront(rank, key, Delete(e, key).order);
  }

  lemma OrderAfter(rank: string -> int, threshold: int, m: Shard, op: Op)
    requires Consistent(m) && Decreasing(rank, m.order)
    ensures Pushed(rank, Touched(m, op), Step(threshold, m, op).order)
  {
    match op
    case GetOp(key, now) => OrderAfterGet(rank, m, key, now, Step(threshold, m, op).order, Touched(m, op));
    case SetOp(key, content, ttl, now) => OrderAfterSet(rank, threshold, m, key, content, ttl, now);
    case DeleteOp(key) => OrderAfterDelete(rank, m, key);
    case ClearOp =>
  }

  /** After every run the recency sequence is the residents sorted by last touch, most recent first. */
  lemma {:induction false} RecencyOrder(threshold: int, ops: seq<Op>)
    ensures Decreasing(k => LastTouch(threshold, ops, k), Run(threshold, ops).order)
  {
    if ops != [] {
      var before := ops[..|ops| - 1];
      var op := ops[|ops| - 1];
      var m := Run(threshold, before);
      RecencyOrder(threshold, before);
      RunConsistent(threshold, before);
      OrderAfter(k => LastTouch(threshold, before, k), threshold, m, op);
      var s := Run(threshold, ops).order;
      forall i, j | 0 <= i < j < |s|
        ensures LastTouch(threshold, ops, s[i]) > LastTouch(threshold, ops, s[j])
      {
        LastTouchBound(threshold, before, s[j]);
        if Touched(m, op).Some? {
          assert s[1..][j - 1] == s[j];
          assert i > 0 ==> s[1..][i - 1] == s[i];
        }
      }
    }
  }

  /** Eviction, on a shard in any reachable state, removes exactly the resident whose last touch is oldest. */
  lemma EvictsLeastRecentlyTouched(threshold: int, ops: seq<Op>, victim: string)
    requires victim in Run(threshold, ops).store && victim !in Evict(Run(threshold, ops)).store
    ensures Evict(Run(threshold, ops)).store == Run(threshold, ops).store - {victim}
    ensures forall k :: k in Run(threshold, ops).store && k != victim ==>
              LastTouch(threshold, ops, k) > LastTouch(threshold, ops, victim)
  {
    var m := Run(threshold, ops);
    RunConsistent(threshold, ops);
    RecencyOrder(threshold, ops);
    OnlyLastLeaves(k => LastTouch(threshold, ops, k), m, victim);
  }

  lemma OnlyLastLeaves(rank: string -> int, m: Shard, victim: string)
    requires Consistent(m) && Decreasing(rank, m.order)
    requires victim in m.store && victim !in Evict(m).store
    ensures Evict(m).store == m.store - {victim}
    ensures forall k :: k in m.store && k != victim ==> rank(k) > rank(victim)
  {
    var last := |m.order| - 1;
    assert m.order[last] == victim;
    forall k | k in m.store && k != victim
      ensures rank(k) > rank(victim)
    {
      assert k in m.order;
      var i :| 0 <= i < |m.order| && m.order[i] == k;
    }
  }

  lemma RunMore(threshold: int, ops: seq<Op>, op: Op)
    ensures Run(threshold, ops + [op]) == Step(threshold, Run(threshold, ops), op)
  {
    assert (ops + [op])[..|ops|] == ops;
  }

  /** Below the threshold, and on an empty shard, a Set drops nothing: every other resident stays as it was. */
  lemma SetKeepsAll(threshold: int, ops: seq<Op>, key: string, content: Content, ttl: int, now: int)
    requires Run(threshold, ops).size < threshold || Run(threshold, ops).store == map[]
    ensures var m, m' := Run(threshold, ops), Run(threshold, ops + [SetOp(key, content, ttl, now)]);
            m'.store == m.store[key := Item(content, now + ttl, 1, now)] && m'.evictions == m.evictions
  {
    RunMore(threshold, ops, SetOp(key, content, ttl, now));
    RunConsistent(threshold, ops);
    SetStore(threshold, Run(threshold, ops), key, content, ttl, now);
  }

  /**
   From the threshold on, a Set on a shard that is not empty drops one resident, the least recently touched: it may be
   the key that is being set.
   */
  lemma SetDropsOldest(threshold: int, ops: seq<Op>, key: string, content: Content, ttl: int, now: int)
      returns (victim: string)
    requires Run(threshold, ops).size >= threshold && Run(threshold, ops).store != map[]
    ensures victim in Run(threshold, ops).store
    ensures forall k :: k in Run(threshold, ops).store && k != victim ==>
              LastTouch(threshold, ops, k) > LastTouch(threshold, ops, victim)
    ensures var m, m' := Run(threshold, ops), Run(threshold, ops + [SetOp(key, content, ttl, now)]);
            && m'.store == (m.store - {victim})[key := Item(content, now + ttl, 1, now)]
            && m'.evictions == m.evictions + 1
  {
    var m := Run(threshold, ops);
    RunMore(threshold, ops, SetOp(key, content, ttl, now));
    RunConsistent(threshold, ops);
    victim := Oldest(m);
    SetStore(threshold, m, key, content, ttl, now);
    EvictsLeastRecentlyTouched(threshold, ops, victim);
  }

  lemma Oldest(m: Shard) returns (victim: string)
    requires Consistent(m) && m.store != map[]
    ensures m.order != [] && victim in m.store && victim !in Evict(m).store
  {
    Countable(m);
    victim := m.order[|m.order| - 1];
  }

  lemma SetStore(threshold: int, m: Shard, key: string, content: Content, ttl: int, now: int)
    requires Consistent(m)
    ensures var m', item := Set(threshold, m, key, content, ttl, now), Item(content, now + ttl, 1, now);
            m'.store == EvictIfFull(threshold, m).store[key := item]
            && m'.evictions == EvictIfFull(threshold, m).evictions
  {
  }

  // ---------- what the counters and the time of access mean ----------

  /** Whether the next operation is a Get that finds a live entry. */
  predicate Hits(m: Shard, op: Op) {
    op.GetOp? && op.key in m.store && op.now <= m.store[op.key].expiresAt
  }

  /** Whether the next operation is a Set that finds the shard full, and something to drop. */
  predicate Overfills(threshold: int, m: Shard, op: Op) {
    op.SetOp? && m.size >= threshold && m.store != map[]
  }

  datatype Tally = Tally(hits: nat, misses: nat, evictions: nat)

  /** How many Gets of a run found a live entry and how many did not, and how many Sets found the shard full. */
  function Tallied(threshold: int, ops: seq<Op>): Tally {
    if ops == [] then Tally(0, 0, 0)
    else
      var t, op := Tallied(threshold, ops[..|ops| - 1]), ops[|ops| - 1];
      var m := Run(threshold, ops[..|ops| - 1]);
      if Hits(m, op) then t.(hits := t.hits + 1)
      else if op.GetOp? then t.(misses := t.misses + 1)
      else if Overfills(threshold, m, op) then t.(evictions := t.evictions + 1)
      else t
  }

  /** The counters of a shard count just these, through every Clear. */
  lemma {:induction false} CountersMeaning(threshold: int, ops: seq<Op>)
    ensures var m, t := Run(threshold, ops), Tallied(threshold, ops);
            m.hits == t.hits && m.misses == t.misses && m.evictions == t.evictions
  {
    if ops != [] {
      var before := ops[..|ops| - 1];
      CountersMeaning(threshold, before);
      RunConsistent(threshold, before);
      if ops[|ops| - 1].SetOp? { Countable(Run(threshold, before)); }
    }
  }

  lemma Countable(m: Shard)
    requires Consistent(m)
    ensures m.order == [] <==> m.store == map[]
  {
    if m.order == [] { assert |m.store| == 0; }
  }

  /** When key was last Set or hit. */
  function LastUse(threshold: int, ops: seq<Op>, key: string): int {
    if ops == [] then 0
    else
      var before, op := ops[..|ops| - 1], ops[|ops| - 1];
      if (op.SetOp? || Hits(Run(threshold, before), op)) && op.key == key then op.now
      else LastUse(threshold, before, key)
  }

  /** A resident's lastAccess is the time of its last Set or hit. */
  lemma {:induction false} LastAccess(threshold: int, ops: seq<Op>, key: string)
    requires key in Run(threshold, ops).store
    ensures Run(threshold, ops).store[key].lastAccess == LastUse(threshold, ops, key)
  {
    var before := ops[..|ops| - 1];
    if key in Run(threshold, before).store && !(ops[|ops| - 1].SetOp? && ops[|ops| - 1].key == key) {
      LastAccess(threshold, before, key);
    }
  }

  /** How many hits key had since it was last Set. */
  function HitsSinceSet(threshold: int, ops: seq<Op>, key: string): nat {
    if ops == [] then 0
    else
      var before := ops[..|ops| - 1];
      match ops[|ops| - 1]
      case SetOp(k, _, _, _) => if k == key then 0 else HitsSinceSet(threshold, before, key)
      case GetOp(k, now) =>
        HitsSinceSet(threshold, before, key) + if k == key && Get(Run(threshold, before), k, now).1.Some? then 1 else 0
      case _ => HitsSinceSet(threshold, before, key)
  }

  /** A resident's access count is one more than its hits since it was Set, so promotions are hits 9, 19, 29, ... */
  lemma {:induction false} AccessCount(threshold: int, ops: seq<Op>, key: string)
    requires key in Run(threshold, ops).store
    ensures Run(threshold, ops).store[key].accessCount == 1 + HitsSinceSet(threshold, ops, key)
  {
    var before := ops[..|ops| - 1];
    if key in Run(threshold, before).store && !(ops[|ops| - 1].SetOp? && ops[|ops| - 1].key == key) {
      AccessCount(threshold, before, key);
    }
  }
}
