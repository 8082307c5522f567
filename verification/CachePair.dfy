/** The two caches as objects, side by side: whatever is done to both from their creation on, their Gets agree. */
module CachePair {
  import opened Base
  import M = ShardModel
  import C = CacheModel
  import O = OptimizedCache
  import T = TtlCache
  import ShardIndex

  /** What the two caches answered to one operation; nothing unless it was a Get. */
  datatype Answer = Answer(hit: Option<M.Hit>, plain: Option<C.FlatEntry>)

  class Pair {
    const optimized: O.Cache
    const plain: T.InMemoryCache

    ghost predicate PlainStands(flat: C.Flat)
      reads plain, plain.shards, plain.refs.Values
    {
      plain.Valid() && plain.Flat() == flat
    }

    ghost predicate Stands(cs: seq<M.Shard>, flat: C.Flat)
      reads optimized.shards, optimized.Footprint(), plain, plain.shards, plain.refs.Values
    {
      |optimized.shards| > 0 && optimized.Represents(cs) && PlainStands(flat)
    }

    ghost function Objects(): set<object>
      reads optimized.shards, plain
    {
      {optimized, plain} + optimized.Footprint() + (set s | s in plain.shards)
    }

    constructor (shardCount: int, threshold: int, cpus: nat, hash: string -> nat, plainHash: string -> nat)
      requires cpus > 0
      ensures After([]) && fresh(Objects())
      ensures optimized.threshold == threshold && optimized.hash == hash
      ensures O.CountFor(shardCount, cpus, |optimized.shards|)
    {
      optimized := new O.Cache(shardCount, threshold, cpus, hash);
      plain := new T.InMemoryCache(plainHash);
      new;
      optimized.RoutesAll();
    }

    /** The two caches share no objects. */
    lemma Distinct()
      ensures forall o: object {:trigger o in optimized.Footprint()} ::
                o in optimized.Footprint() ==> o != plain && o !in plain.shards && o !in plain.refs.Values
    {
    }

    method OnOptimized(op: M.Op, ghost cs: seq<M.Shard>, ghost flat: C.Flat) returns (hit: Option<M.Hit>)
      requires Stands(cs, flat)
      modifies optimized, optimized.shards, optimized.Footprint()
      ensures C.Routes(optimized.Router(), |optimized.shards|)
      ensures Stands(C.Step(optimized.threshold, optimized.Router(), cs, op), flat)
      ensures hit == if op.GetOp? then M.Get(cs[optimized.Router()(op.key)], op.key, op.now).1 else None
      ensures fresh(optimized.Footprint() - old(optimized.Footprint()))
    {
      Distinct();
      hit := optimized.Apply(op, cs);
    }

    method OnPlain(op: M.Op, ghost cs: seq<M.Shard>, ghost flat: C.Flat) returns (found: Option<C.FlatEntry>)
      requires Stands(cs, flat)
      modifies plain`refs, plain.shards
      ensures Stands(cs, C.FlatStep(flat, op)) && optimized.Footprint() == old(optimized.Footprint())
      ensures found == if op.GetOp? then C.FlatGet(flat, op.key, op.now).1 else None
    {
      found := plain.Apply(op);
    }

    /** One operation on both; a Set hands the plain cache an entry object of its own. */
    method Apply(op: M.Op, ghost cs: seq<M.Shard>, ghost flat: C.Flat) returns (answer: Answer)
      requires Stands(cs, flat)
      modifies Objects()
      ensures C.Routes(optimized.Router(), |optimized.shards|)
      ensures Stands(C.Step(optimized.threshold, optimized.Router(), cs, op), C.FlatStep(flat, op))
      ensures fresh(Objects() - old(Objects()))
      ensures Answers(optimized.Router(), cs, flat, op, answer)
    {
      var hit := OnOptimized(op, cs, flat);
      var found := OnPlain(op, C.Step(optimized.threshold, optimized.Router(), cs, op), flat);
      answer := Answer(hit, found);
    }

    /** Both caches stand where the operations so far leave them. */
    ghost predicate After(ops: seq<M.Op>)
      reads optimized.shards, optimized.Footprint(), plain, plain.shards, plain.refs.Values
    {
      && |optimized.shards| > 0
      && C.Routes(optimized.Router(), |optimized.shards|)
      && Stands(C.Run(optimized.threshold, optimized.Router(), |optimized.shards|, ops), C.FlatRun(ops))
    }

    method Next(op: M.Op, ghost before: seq<M.Op>) returns (answer: Answer)
      requires After(before)
      modifies Objects()
      ensures After(before + [op]) && fresh(Objects() - old(Objects()))
      ensures Gives(optimized.threshold, optimized.Router(), |optimized.shards|, before, op, answer)
    {
      ghost var cs := C.Run(optimized.threshold, optimized.Router(), |optimized.shards|, before);
      answer := Apply(op, cs, C.FlatRun(before));
      RunMore(optimized.threshold, optimized.Router(), |optimized.shards|, before, op);
    }

    method Through(ops: seq<M.Op>) returns (answers: seq<Answer>)
      requires After([])
      modifies Objects()
      ensures |answers| == |ops| && After(ops)
      ensures AllGive(optimized.threshold, optimized.Router(), |optimized.shards|, ops, answers)
    {
      answers := [];
      for n := 0 to |ops|
        invariant |answers| == n && After(ops[..n]) && fresh(Objects() - old(Objects()))
        invariant AllGive(optimized.threshold, optimized.Router(), |optimized.shards|, ops, answers)
      {
        var answer := Next(ops[n], ops[..n]);
        GiveMore(optimized.threshold, optimized.Router(), |optimized.shards|, ops, answers, answer);
        assert ops[..n + 1] == ops[..n] + [ops[n]];
        answers := answers + [answer];
      }
      assert ops[..|ops|] == ops;
    }
  }

  /** The answer of caches that stand at cs and flat. */
  ghost predicate Answers(route: C.Route, cs: seq<M.Shard>, flat: C.Flat, op: M.Op, a: Answer)
    requires C.Routes(route, |cs|)
  {
    if op.GetOp? then
      && a.hit == M.Get(cs[route(op.key)], op.key, op.now).1
      && a.plain == C.FlatGet(flat, op.key, op.now).1
    else a == Answer(None, None)
  }

  /** The answer of caches that have gone through the operations before. */
  ghost predicate Gives(threshold: int, route: C.Route, count: nat, before: seq<M.Op>, op: M.Op, a: Answer)
    requires C.Routes(route, count)
  {
    Answers(route, C.Run(threshold, route, count, before), C.FlatRun(before), op, a)
  }

  lemma RunMore(threshold: int, route: C.Route, count: nat, before: seq<M.Op>, op: M.Op)
    requires C.Routes(route, count)
    ensures C.Run(threshold, route, count, before + [op])
            == C.Step(threshold, route, C.Run(threshold, route, count, before), op)
    ensures C.FlatRun(before + [op]) == C.FlatStep(C.FlatRun(before), op)
  {
    assert (before + [op])[..|before|] == before;
  }

  /** Every answer so far is what both caches give after the operations before it. */
  ghost predicate AllGive(threshold: int, route: C.Route, count: nat, ops: seq<M.Op>, answers: seq<Answer>) {
    && C.Routes(route, count) && |answers| <= |ops|
    && forall i: nat {:trigger answers[i]} :: i < |answers| ==>
         Gives(threshold, route, count, ops[..i], ops[i], answers[i])
  }

  lemma GiveMore(threshold: int, route: C.Route, count: nat, ops: seq<M.Op>, answers: seq<Answer>, a: Answer)
    requires AllGive(threshold, route, count, ops, answers) && |answers| < |ops|
    requires Gives(threshold, route, count, ops[..|answers|], ops[|answers|], a)
    ensures AllGive(threshold, route, count, ops, answers + [a])
  {
  }

  /**
   A Get that hits the optimized cache hits the plain one alike, and it misses where the plain one hits for an eviction
   only.
   */
  ghost predicate Agrees(threshold: int, route: C.Route, count: nat, before: seq<M.Op>, op: M.Op, a: Answer)
    requires C.Routes(route, count)
  {
    op.GetOp? ==>
      && (a.hit.Some? ==> a.plain.Some? && C.Serves(a.hit.value, a.plain.value))
      && (a.plain.Some? ==> (a.hit.None? <==> op.key in C.Evicted(threshold, route, count, before)))
  }

  lemma GivenAgree(threshold: int, route: C.Route, count: nat, before: seq<M.Op>, op: M.Op, a: Answer)
    requires C.Routes(route, count) && Gives(threshold, route, count, before, op, a)
    ensures Agrees(threshold, route, count, before, op, a)
  {
    if op.GetOp? { C.GetsAgree(threshold, route, count, before, op.key, op.now); }
  }

  /** Every key goes to the shard that the mask of its hash names. */
  ghost predicate Masked(route: C.Route, hash: string -> nat, count: nat) {
    count > 0 && forall key :: route(key) == ShardIndex.Index(hash(key), count)
  }

  /**
   Two caches are created and go through the same operations, whatever they are. Every Get gets from each cache what
   that cache's model gives after the operations before it; one that hits the optimized cache hits the plain one with
   the same content, and one that hits only the plain cache asks for a key evicted since its last Set.
   */
  method Drive(ops: seq<M.Op>, shardCount: int, threshold: int, cpus: nat, hash: string -> nat,
      plainHash: string -> nat)
    returns (answers: seq<Answer>, count: nat, ghost route: C.Route)
    requires cpus > 0
    ensures Masked(route, hash, count) && O.CountFor(shardCount, cpus, count)
    ensures |answers| == |ops| && AllGive(threshold, route, count, ops, answers)
    ensures forall i: nat {:trigger answers[i]} :: i < |ops| ==>
              Agrees(threshold, route, count, ops[..i], ops[i], answers[i])
  {
    var pair := new Pair(shardCount, threshold, cpus, hash, plainHash);
    count, route := |pair.optimized.shards|, pair.optimized.Router();
    answers := pair.Through(ops);
    forall i: nat {:trigger answers[i]} | i < |ops|
      ensures Agrees(threshold, route, count, ops[..i], ops[i], answers[i])
    {
      GivenAgree(threshold, route, count, ops[..i], ops[i], answers[i]);
    }
  }
}
