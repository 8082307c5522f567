/**
 How much the threads of the optimized limiter can take in a window: with two idle threads, all that the account allows,
 because one of them can empty the bucket while the other still holds its refill.
 */
module LimiterWindows {
  import opened Base
  import R = RateLimiter
  import opened OptimizedRateLimiter

  /** The state after further actions. */
  function Play(c: Config, s: State, more: seq<Action>): State
    requires Positive(c)
  {
    if more == [] then s else Act(c, Play(c, s, more[..|more| - 1]), more[|more| - 1])
  }

  lemma {:induction false} ReachPlay(c: Config, created: int, n: nat, before: seq<Action>, more: seq<Action>)
    requires Positive(c)
    ensures Reach(c, created, n, before + more) == Play(c, Reach(c, created, n, before), more)
  {
    if more == [] {
      assert before + more == before;
    } else {
      var k := |more| - 1;
      assert (before + more)[..|before + more| - 1] == before + more[..k];
      ReachPlay(c, created, n, before, more[..k]);
    }
  }

  ghost predicate Leads(c: Config, s: State, s': State)
    requires Positive(c)
  {
    exists more :: Play(c, s, more) == s'
  }

  lemma LeadsNowhere(c: Config, s: State)
    requires Positive(c)
    ensures Leads(c, s, s)
  {
    assert Play(c, s, []) == s;
  }

  lemma Then(c: Config, s: State, s': State, a: Action)
    requires Positive(c) && Leads(c, s, s')
    ensures Leads(c, s, Act(c, s', a))
  {
    var more :| Play(c, s, more) == s';
    assert (more + [a])[..|more|] == more;
    assert Play(c, s, more + [a]) == Act(c, s', a);
  }

  lemma {:induction false} ThenAlone(c: Config, s: State, s': State, t: nat, k: nat)
    requires Positive(c) && Leads(c, s, s') && t < |s'.threads|
    ensures Leads(c, s, Alone(c, s', t, k))
    decreases k
  {
    if k > 0 {
      Then(c, s, s', Run(t));
      ThenAlone(c, s, Step(c, s', t), t, k - 1);
    }
  }

  function BucketOf(s: State): R.Bucket {
    R.Bucket(s.tokens, s.lastRefill)
  }

  /** An idle thread waits for the time of a call and then makes it. */
  lemma PlayCall(c: Config, s: State, s1: State, t: nat, v: Visit) returns (s2: State)
    requires Positive(c) && Leads(c, s, s1) && t < |s1.threads| && s1.threads[t].Idle?
    requires 0 <= s1.tokens <= c.maxTokens && s1.clock <= v.at
    ensures Leads(c, s, s2) && s2.clock == v.at && s2.threads == s1.threads
    ensures var (b, taken) := Call(c, BucketOf(s1), v.at, v.op);
            BucketOf(s2) == b && Grants(s2) == Grants(s1) + Granted(v.op, taken)
  {
    Then(c, s, s1, Wait(v.at - s1.clock));
    var waited := Act(c, s1, Wait(v.at - s1.clock));
    Then(c, s, waited, Begin(t, v.op));
    var k := AloneCall(c, waited, t, v.op);
    ThenAlone(c, s, Act(c, waited, Begin(t, v.op)), t, k);
    s2 := Alone(c, Act(c, waited, Begin(t, v.op)), t, k);
  }

  /** A single idle thread can play any sequence of calls. */
  lemma {:induction false} Playable(c: Config, s: State, s1: State, t: nat, calls: seq<Visit>, end: int)
      returns (s2: State)
    requires Positive(c) && Leads(c, s, s1) && t < |s1.threads| && s1.threads[t].Idle?
    requires Fits(c, BucketOf(s1), s1.clock) && Timed(s1.clock, calls, end)
    ensures Leads(c, s, s2) && s2.clock == end
    ensures Grants(s2) == Grants(s1) + Taken(c, BucketOf(s1), calls)
    decreases |calls|
  {
    if calls == [] {
      Then(c, s, s1, Wait(end - s1.clock));
      s2 := Act(c, s1, Wait(end - s1.clock));
    } else {
      var next := PlayCall(c, s, s1, t, calls[0]);
      CallAccount(c, BucketOf(s1), calls[0].at, calls[0].op, 0);
      s2 := Playable(c, s, next, t, calls[1..], end);
    }
  }

  /** Thread t enters a call and stops before the swap that would claim the refill. */
  lemma Poise(c: Config, s: State, s1: State, t: nat, op: Op) returns (s2: State)
    requires Positive(c) && Leads(c, s, s1) && t < |s1.threads| && s1.threads[t].Idle? && Asks(c, op)
    requires s1.clock - s1.lastRefill >= c.refillRate
    ensures Leads(c, s, s2)
    ensures s2 == Goto(s1, t, SwapRefill(op, s1.lastRefill, Added(c, BucketOf(s1), s1.clock)))
  {
    Then(c, s, s1, Begin(t, op));
    var entered := Act(c, s1, Begin(t, op));
    assert entered == Goto(s1, t, ReadClock(op));
    ThenAlone(c, s, entered, t, 2);
    s2 := Alone(c, entered, t, 2);
    AloneMore(c, entered, t, 1, 1);
    assert Step(c, entered, t) == Goto(s1, t, LoadRefill(op, s1.clock));
  }

  /** Thread j loses the race for the refill and takes all tokens; thread i then adds its refill and takes that. */
  lemma Collide(c: Config, s: State, s1: State, i: nat, j: nat, add: int) returns (s2: State)
    requires Positive(c) && c.batchSize <= c.maxTokens && Leads(c, s, s1)
    requires i < |s1.threads| && j < |s1.threads| && i != j && 1 <= s1.tokens <= c.maxTokens && 1 <= add <= c.maxTokens
    requires s1.threads[i] == SwapRefill(AllowN(add), s1.lastRefill, add)
    requires s1.threads[j] == SwapRefill(AllowN(s1.tokens), s1.lastRefill, add)
    ensures Leads(c, s, s2) && s2.threads == s1.threads[i := Idle][j := Idle] && s2.clock == s1.clock
    ensures s2.tokens == 0 && s2.lastRefill == s1.lastRefill + add * c.refillRate
    ensures Grants(s2) == Grants(s1) + s1.tokens + add
  {
    MulMonotone(1, add, c.refillRate);
    var last := s1.lastRefill + add * c.refillRate;
    Then(c, s, s1, Run(i));
    var claimed := Act(c, s1, Run(i));
    assert claimed == Goto(s1, i, LoadToAdd(AllowN(add), add)).(lastRefill := last);
    var emptied := TakeAfterLoss(c, s, claimed, j, s1.tokens, s1.lastRefill, add);
    s2 := AddAndTake(c, s, emptied, i, add);
    assert s2.threads == s1.threads[i := Idle][j := Idle];
  }

  lemma TakeAfterLoss(c: Config, s: State, s1: State, j: nat, tokens: int, last: int, add: int) returns (s2: State)
    requires Positive(c) && Leads(c, s, s1) && j < |s1.threads|
    requires s1.tokens == tokens && 1 <= tokens <= c.maxTokens
    requires s1.threads[j] == SwapRefill(AllowN(tokens), last, add) && last != s1.lastRefill
    ensures Leads(c, s, s2) && s2.threads == s1.threads[j := Idle] && s2.clock == s1.clock
    ensures s2.tokens == 0 && s2.lastRefill == s1.lastRefill && Grants(s2) == Grants(s1) + tokens
  {
    ThenAlone(c, s, s1, j, 3);
    s2 := Alone(c, s1, j, 3);
    AloneMore(c, s1, j, 1, 2);
    var lost := Step(c, s1, j);
    assert Alone(c, s1, j, 1) == lost == Goto(s1, j, LoadToTake(AllowN(tokens), 0));
    AloneMore(c, lost, j, 1, 1);
    assert Step(c, lost, j) == Goto(s1, j, SwapTake(AllowN(tokens), 0, tokens));
  }

  lemma AddAndTake(c: Config, s: State, s1: State, i: nat, add: int) returns (s2: State)
    requires Positive(c) && Leads(c, s, s1) && i < |s1.threads| && s1.tokens == 0 && 1 <= add <= c.maxTokens
    requires s1.threads[i] == LoadToAdd(AllowN(add), add)
    ensures Leads(c, s, s2) && s2.threads == s1.threads[i := Idle] && s2.clock == s1.clock
    ensures s2.tokens == 0 && s2.lastRefill == s1.lastRefill && Grants(s2) == Grants(s1) + add
  {
    ThenAlone(c, s, s1, i, 4);
    s2 := Alone(c, s1, i, 4);
    AloneMore(c, s1, i, 2, 2);
    AloneMore(c, s1, i, 1, 1);
    var seen := Step(c, s1, i);
    assert seen == Goto(s1, i, SwapAdd(AllowN(add), add, 0));
    var added := Step(c, seen, i);
    assert added == Goto(s1, i, LoadToTake(AllowN(add), 0)).(tokens := add);
    AloneMore(c, added, i, 1, 1);
    assert Step(c, added, i) == Goto(s1, i, SwapTake(AllowN(add), 0, add)).(tokens := add);
  }

  /** The bucket has been emptied since s1 without losing anything, and lastRefill moved over the given periods. */
  ghost predicate Emptied(c: Config, s1: State, s2: State, taken: int, periods: nat) {
    && s2.clock == s1.clock && s2.tokens == 0 && s2.lastRefill == s1.lastRefill + periods * c.refillRate <= s1.clock
    && Grants(s2) == Grants(s1) + taken + periods
  }

  lemma EmptiedAgain(c: Config, s1: State, s2: State, mid: State, s3: State, a: int, b: int, p: nat, q: nat)
    requires s1.clock == s2.clock && s1.lastRefill == s2.lastRefill && Grants(s1) == Grants(s2)
    requires Emptied(c, s2, mid, a, p) && Emptied(c, mid, s3, b, q)
    ensures Emptied(c, s1, s3, a + b, p + q)
  {
    assert (p + q) * c.refillRate == p * c.refillRate + q * c.refillRate;
  }

  /** All tokens can be taken without losing any at the cap; the refill claimed meanwhile, if any, is taken too. */
  lemma TakeTokens(c: Config, s: State, s1: State, i: nat, j: nat) returns (s2: State, periods: nat)
    requires Fits(c, BucketOf(s1), s1.clock) && Leads(c, s, s1)
    requires i < |s1.threads| && j < |s1.threads| && i != j && s1.threads[i].Idle? && s1.threads[j].Idle?
    ensures Leads(c, s, s2) && s2.threads == s1.threads && Emptied(c, s1, s2, s1.tokens, periods)
  {
    periods := 0;
    s2 := s1;
    if s1.tokens > 0 {
      if s1.clock - s1.lastRefill < c.refillRate {
        s2 := PlayCall(c, s, s1, i, Visit(s1.clock, AllowN(s1.tokens)));
      } else {
        periods := Added(c, BucketOf(s1), s1.clock);
        BatchFits(c, s1.clock - s1.lastRefill);
        var poised := Poise(c, s, s1, i, AllowN(periods));
        var both := Poise(c, s, poised, j, AllowN(s1.tokens));
        s2 := Collide(c, s, both, i, j, periods);
        assert s2.threads == s1.threads;
      }
    }
  }

  /** Whatever credit a thread holds, an empty bucket has room for it. */
  ghost predicate Credited(c: Config, pc: Pc) {
    pc.LoadToAdd? || pc.SwapAdd? ==> 1 <= pc.add <= c.maxTokens
  }

  lemma AddPending(c: Config, s: State, s1: State, p: nat) returns (s2: State)
    requires Positive(c) && Leads(c, s, s1) && p < |s1.threads| && s1.tokens == 0
    requires s1.threads[p].LoadToAdd? || s1.threads[p].SwapAdd?
    requires Credited(c, s1.threads[p])
    ensures Leads(c, s, s2)
    ensures s2 == Goto(s1, p, LoadToTake(s1.threads[p].op, 0)).(tokens := s1.threads[p].add)
  {
    var op, add := s1.threads[p].op, s1.threads[p].add;
    var loaded := s1;
    if s1.threads[p].SwapAdd? && s1.threads[p].seen != 0 {
      Then(c, s, s1, Run(p));
      loaded := Act(c, s1, Run(p));
      assert loaded == Goto(s1, p, LoadToAdd(op, add));
    }
    if loaded.threads[p].LoadToAdd? {
      Then(c, s, loaded, Run(p));
      loaded := Act(c, loaded, Run(p));
    }
    assert loaded == Goto(s1, p, SwapAdd(op, add, 0));
    Then(c, s, loaded, Run(p));
    s2 := Act(c, loaded, Run(p));
  }

  lemma PendingFrom(threads: seq<Pc>, p: nat)
    requires p < |threads|
    ensures PendingSum(threads[p..]) == Pending(threads[p]) + PendingSum(threads[p + 1..])
  {
    assert threads[p..][1..] == threads[p + 1..];
  }

  lemma CollectOne(c: Config, s: State, s1: State, i: nat, j: nat, p: nat) returns (s2: State, periods: nat)
    requires Fits(c, BucketOf(s1), s1.clock) && Leads(c, s, s1) && s1.tokens == 0
    requires i < |s1.threads| && j < |s1.threads| && i != j && s1.threads[i].Idle? && s1.threads[j].Idle?
    requires p < |s1.threads| && Credited(c, s1.threads[p])
    ensures Leads(c, s, s2) && Emptied(c, s1, s2, Pending(s1.threads[p]), periods)
    ensures p < |s2.threads| && s2.threads == s1.threads[p := s2.threads[p]]
    ensures s2.threads[i].Idle? && s2.threads[j].Idle? && Fits(c, BucketOf(s2), s2.clock)
  {
    if s1.threads[p].LoadToAdd? || s1.threads[p].SwapAdd? {
      var added := AddPending(c, s, s1, p);
      s2, periods := TakeTokens(c, s, added, i, j);
    } else {
      s2, periods := s1, 0;
    }
  }

  /** The threads from p on add what credit they hold, one by one, and two idle threads take it each time. */
  lemma {:induction false} Collect(c: Config, s: State, s1: State, i: nat, j: nat, p: nat)
      returns (s2: State, periods: nat)
    requires Fits(c, BucketOf(s1), s1.clock) && Leads(c, s, s1) && s1.tokens == 0 && p <= |s1.threads|
    requires i < |s1.threads| && j < |s1.threads| && i != j && s1.threads[i].Idle? && s1.threads[j].Idle?
    requires forall t :: p <= t < |s1.threads| ==> Credited(c, s1.threads[t])
    ensures Leads(c, s, s2) && Emptied(c, s1, s2, PendingSum(s1.threads[p..]), periods)
    ensures |s2.threads| == |s1.threads| && s2.threads[i].Idle? && s2.threads[j].Idle?
    decreases |s1.threads| - p
  {
    if p == |s1.threads| {
      s2, periods := s1, 0;
    } else {
      var mid, before := CollectOne(c, s, s1, i, j, p);
      var rest;
      s2, rest := Collect(c, s, mid, i, j, p + 1);
      periods := before + rest;
      assert mid.threads[p + 1..] == s1.threads[p + 1..];
      PendingFrom(s1.threads, p);
      EmptiedAgain(c, s1, s1, mid, s2, Pending(s1.threads[p]), PendingSum(mid.threads[p + 1..]), before, rest);
    }
  }

  lemma PeriodsUpShift(x: int, k: int, rate: int)
    requires rate >= 1
    ensures PeriodsUp(x - k * rate, rate) == PeriodsUp(x, rate) - k
  {
    var q, r := x / rate, x % rate;
    assert x - k * rate == (q - k) * rate + r;
    DivUnique(x - k * rate, rate, q - k, r);
  }

  /** The tokens, the pending credit and the periods that lastRefill lags behind, a begun one included, together. */
  function Owed(c: Config, s: State): int
    requires Positive(c)
  {
    s.tokens + PendingSum(s.threads) + PeriodsUp(s.clock - s.lastRefill, c.refillRate)
  }

  /** From an emptied bucket a single thread gets the rest. */
  lemma TakeRest(c: Config, s: State, s1: State, s2: State, i: nat, taken: int, periods: nat) returns (s': State)
    requires Fits(c, BucketOf(s1), s1.clock) && Leads(c, s, s2) && Emptied(c, s1, s2, taken, periods)
    requires i < |s2.threads| && s2.threads[i].Idle?
    ensures Leads(c, s, s') && (s'.clock - s1.clock) / c.refillRate == 0
    ensures Grants(s') == Grants(s1) + taken + PeriodsUp(s1.clock - s1.lastRefill, c.refillRate)
  {
    var b := BucketOf(s2);
    var calls, end := TakeAll(c, b, s2.clock);
    s' := Playable(c, s, s2, i, calls, end);
    PeriodsUpShift(s1.clock - s1.lastRefill, periods, c.refillRate);
    LagGrows(c, b, s2.clock, s2.clock);
    assert Kept(c, b, s2.clock) == 0;
  }

  /** Two idle threads, and those that hold credit, can get all that is owed before one period has passed. */
  lemma TakeEverything(c: Config, s: State, i: nat, j: nat) returns (s': State)
    requires Fits(c, BucketOf(s), s.clock) && forall t :: 0 <= t < |s.threads| ==> Credited(c, s.threads[t])
    requires i < |s.threads| && j < |s.threads| && i != j && s.threads[i].Idle? && s.threads[j].Idle?
    ensures Leads(c, s, s') && (s'.clock - s.clock) / c.refillRate == 0
    ensures Grants(s') - Grants(s) == Owed(c, s)
  {
    var emptied, periods := EmptyAll(c, s, i, j);
    s' := TakeRest(c, s, s, emptied, i, s.tokens + PendingSum(s.threads), periods);
  }

  lemma EmptyAll(c: Config, s: State, i: nat, j: nat) returns (s': State, periods: nat)
    requires Fits(c, BucketOf(s), s.clock) && forall t :: 0 <= t < |s.threads| ==> Credited(c, s.threads[t])
    requires i < |s.threads| && j < |s.threads| && i != j && s.threads[i].Idle? && s.threads[j].Idle?
    ensures Leads(c, s, s') && Emptied(c, s, s', s.tokens + PendingSum(s.threads), periods)
    ensures |s'.threads| == |s.threads| && s'.threads[i].Idle?
  {
    LeadsNowhere(c, s);
    var s1, first := TakeTokens(c, s, s, i, j);
    var second;
    s', second := Collect(c, s, s1, i, j, 0);
    assert s1.threads[0..] == s.threads;
    EmptiedAgain(c, s, s, s1, s', s.tokens, PendingSum(s.threads), first, second);
    periods := first + second;
  }

  ghost predicate WindowBounded(c: Config, s: State, s': State)
    requires Positive(c)
  {
    Grants(s') - Grants(s) <= c.maxTokens + (s'.clock - s.clock) / c.refillRate + 1
  }

  /** Whatever the threads do from s on, every window that begins now is bounded as in the original. */
  ghost predicate AllBounded(c: Config, s: State)
    requires Positive(c)
  {
    forall more :: WindowBounded(c, s, Play(c, s, more))
  }

  lemma WindowBroken(c: Config, s: State, i: nat, j: nat)
    requires Fits(c, BucketOf(s), s.clock) && forall t :: 0 <= t < |s.threads| ==> Credited(c, s.threads[t])
    requires i < |s.threads| && j < |s.threads| && i != j && s.threads[i].Idle? && s.threads[j].Idle?
    requires Owed(c, s) > c.maxTokens + 1
    ensures !AllBounded(c, s)
  {
    var s' := TakeEverything(c, s, i, j);
    NotBounded(c, s, s');
    var more :| Play(c, s, more) == s';
    assert !WindowBounded(c, s, Play(c, s, more));
  }

  lemma NotBounded(c: Config, s: State, s': State)
    requires Positive(c) && (s'.clock - s.clock) / c.refillRate == 0 && Grants(s') - Grants(s) > c.maxTokens + 1
    ensures !WindowBounded(c, s, s')
  {
  }

  lemma WindowsKept(c: Config, created: int, n: nat, before: seq<Action>, s: State)
    requires Positive(c) && s == Reach(c, created, n, before) && Owed(c, s) <= c.maxTokens + 1
    ensures AllBounded(c, s)
  {
    forall more
      ensures WindowBounded(c, s, Play(c, s, more))
    {
      ReachPlay(c, created, n, before, more);
      OneWindowKept(c, created, n, before, more, s, Play(c, s, more));
    }
  }

  lemma OneWindowKept(c: Config, created: int, n: nat, before: seq<Action>, more: seq<Action>, s: State, s': State)
    requires Positive(c) && s == Reach(c, created, n, before) && s' == Reach(c, created, n, before + more)
    requires Owed(c, s) <= c.maxTokens + 1
    ensures WindowBounded(c, s, s')
  {
    WindowKept(c, created, n, before, more);
  }

  lemma ReachFits(c: Config, created: int, n: nat, before: seq<Action>, s: State)
    requires Positive(c) && c.batchSize <= c.maxTokens && s == Reach(c, created, n, before)
    ensures Fits(c, BucketOf(s), s.clock) && forall t :: 0 <= t < |s.threads| ==> Credited(c, s.threads[t])
  {
    var claimed := AlwaysBalanced(c, created, n, before);
    forall t | 0 <= t < |s.threads|
      ensures Credited(c, s.threads[t])
    {
      assert Sound(c, s.clock, s.threads[t]);
    }
  }

  /**
   In any reachable state with two idle threads, the original's bound holds for every window that begins now, whatever
   the threads do, exactly if the tokens, the pending credit and the periods lastRefill lags behind together exceed the
   capacity by one at most. Nothing need be lost at the cap, as it is for a single caller.
   */
  lemma WindowExactForThreads(c: Config, created: int, n: nat, before: seq<Action>, s: State, i: nat, j: nat)
    requires Positive(c) && c.batchSize <= c.maxTokens && s == Reach(c, created, n, before)
    requires i < |s.threads| && j < |s.threads| && i != j && s.threads[i].Idle? && s.threads[j].Idle?
    ensures AllBounded(c, s) <==> Owed(c, s) <= c.maxTokens + 1
  {
    ReachFits(c, created, n, before, s);
    var owed := Owed(c, s);
    if owed <= c.maxTokens + 1 {
      WindowsKept(c, created, n, before, s);
    } else {
      WindowBroken(c, s, i, j);
    }
  }
}
