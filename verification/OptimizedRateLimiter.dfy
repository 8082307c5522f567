/**
 The lock-free token bucket of rate_limiter_optimized.go: once as a class for a single caller, and once as a machine in
 which any number of threads interleave their atomic loads and compare-and-swaps.
 */
module OptimizedRateLimiter {
  import opened Base
  import R = RateLimiter

  /** refillRate is the time per token; refillThreshold always equals it. */
  datatype Config = Config(maxTokens: int, refillRate: int, batchSize: int)

  ghost predicate Positive(c: Config) {
    c.maxTokens >= 1 && c.refillRate >= 1 && c.batchSize >= 1
  }

  // NewOptimizedRateLimiter
  function Configure(maxTokens: int, refillRate: int): (c: Config)
    ensures Positive(c) && c.batchSize <= c.maxTokens
  {
    var max := if maxTokens <= 0 then 1 else maxTokens;
    var rate := if refillRate <= 0 then SECOND else refillRate;
    DivMonotone(0, rate, max);
    var perToken := rate / max;
    var batch := if rate >= SECOND then max / 10 else 1;
    Config(max, if perToken == 0 then 1 else perToken, if batch == 0 then 1 else batch)
  }

  // ---------- one caller ----------

  function Refilled(c: Config, b: R.Bucket, now: int): R.Bucket
    requires Positive(c)
  {
    var elapsed := now - b.lastRefill;
    if elapsed < c.refillRate then b
    else
      var add := Min(elapsed / c.refillRate, c.batchSize);
      R.Bucket(Min(b.tokens + add, c.maxTokens), b.lastRefill + add * c.refillRate)
  }

  datatype Op = Allow | AllowN(n: int) | Reserve

  /** What one call does when it runs alone: the bucket it leaves and whether it took its tokens. */
  function Call(c: Config, b: R.Bucket, now: int, op: Op): (R.Bucket, bool)
    requires Positive(c)
  {
    if op.AllowN? && op.n <= 0 then (b, true)
    else if op.AllowN? && op.n > c.maxTokens then (b, false)
    else
      var r := Refilled(c, b, now);
      var n := if op.AllowN? then op.n else 1;
      if r.tokens < n then (r, false) else (r.(tokens := r.tokens - n), true)
  }

  class OptimizedRateLimiter {
    const config: Config
    var tokens: int
    var lastRefill: int

    ghost function State(): R.Bucket
      reads this
    {
      R.Bucket(tokens, lastRefill)
    }

    constructor (maxTokens: int, refillRate: int, now: int)
      ensures config == Configure(maxTokens, refillRate) && State() == R.Bucket(config.maxTokens, now)
    {
      var c := Configure(maxTokens, refillRate);
      config, tokens, lastRefill := c, c.maxTokens, now;
    }

    method FastRefill(now: int)
      requires Positive(config)
      modifies this
      ensures State() == Refilled(config, old(State()), now)
    {
      var elapsed := now - lastRefill;
      if elapsed < config.refillRate {
        return;
      }
      var tokensToAdd := elapsed / config.refillRate;
      if tokensToAdd == 0 {
        return;
      }
      if tokensToAdd > config.batchSize {
        tokensToAdd := config.batchSize;
      }
      lastRefill := lastRefill + tokensToAdd * config.refillRate;
      var newTokens := tokens + tokensToAdd;
      if newTokens > config.maxTokens {
        newTokens := config.maxTokens;
      }
      tokens := newTokens;
    }

    method ConsumeTokenFast() returns (taken: bool)
      modifies this
      ensures taken == (old(tokens) > 0) && lastRefill == old(lastRefill)
      ensures tokens == old(tokens) - (if taken then 1 else 0)
    {
      if tokens <= 0 {
        return false;
      }
      tokens := tokens - 1;
      return true;
    }

    method Allow(now: int) returns (allowed: bool)
      requires Positive(config)
      modifies this
      ensures (State(), allowed) == Call(config, old(State()), now, Op.Allow)
    {
      FastRefill(now);
      allowed := ConsumeTokenFast();
    }

    method AllowN(n: int, now: int) returns (allowed: bool)
      requires Positive(config)
      modifies this
      ensures (State(), allowed) == Call(config, old(State()), now, Op.AllowN(n))
    {
      if n <= 0 {
        return true;
      }
      if n > config.maxTokens {
        return false;
      }
      FastRefill(now);
      if tokens < n {
        return false;
      }
      tokens := tokens - n;
      return true;
    }

    /** The token-taking part of Reserve; the wait time it reports otherwise is left out. */
    method Reserve(now: int) returns (taken: bool)
      requires Positive(config)
      modifies this
      ensures (State(), taken) == Call(config, old(State()), now, Op.Reserve)
    {
      FastRefill(now);
      taken := ConsumeTokenFast();
    }
  }

  // ---------- any number of callers ----------

  /** Where a thread stands between two atomic actions, with its local variables. */
  datatype Pc =
    | Idle
    | ReadClock(op: Op)
    | LoadRefill(op: Op, now: int)
    | SwapRefill(op: Op, last: int, add: int)
    | LoadToAdd(op: Op, add: int)
    | SwapAdd(op: Op, add: int, seen: int)
    | LoadToTake(op: Op, attempts: nat)
    | SwapTake(op: Op, attempts: nat, seen: int)

  /** What thread t got back from a call. */
  datatype Answer = Answer(t: nat, op: Op, taken: bool)

  /** The shared fields, the clock, the threads, the answers given, and the tokens lost at the cap. */
  datatype State =
    State(tokens: int, lastRefill: int, clock: int, threads: seq<Pc>, answers: seq<Answer>, lost: nat)

  datatype Action =
    | Wait(d: nat)               // time passes
    | Begin(t: nat, op: Op)      // thread t, when idle, enters a call
    | Run(t: nat)                // thread t performs its next atomic action

  function Amount(op: Op): int {
    if op.AllowN? then op.n else 1
  }

  /** The credit a thread has claimed by moving lastRefill and not yet added to tokens. */
  function Pending(pc: Pc): int {
    if pc.LoadToAdd? || pc.SwapAdd? then pc.add else 0
  }

  function Reply(s: State, t: nat, op: Op, taken: bool): State
    requires t < |s.threads|
  {
    Goto(s, t, Idle).(answers := s.answers + [Answer(t, op, taken)])
  }

  /** The tokens that a call was told it has taken. */
  function Granted(op: Op, taken: bool): nat {
    if taken && Amount(op) > 0 then Amount(op) else 0
  }

  /** The tokens that all these answers hand out. */
  function GrantedBy(answers: seq<Answer>): nat {
    if answers == [] then 0
    else GrantedBy(answers[..|answers| - 1]) + Granted(answers[|answers| - 1].op, answers[|answers| - 1].taken)
  }

  function Grants(s: State): nat {
    GrantedBy(s.answers)
  }

  lemma GrantsMore(answers: seq<Answer>, a: Answer)
    ensures GrantedBy(answers + [a]) == GrantedBy(answers) + Granted(a.op, a.taken)
  {
    assert (answers + [a])[..|answers|] == answers;
  }

  /** Entering a call; AllowN answers at once when it asks for nothing or for more than the bucket can hold. */
  function Enter(c: Config, s: State, t: nat, op: Op): State
    requires t < |s.threads|
  {
    if op.AllowN? && op.n <= 0 then Reply(s, t, op, true)
    else if op.AllowN? && op.n > c.maxTokens then Reply(s, t, op, false)
    else Goto(s, t, ReadClock(op))
  }

  function Step(c: Config, s: State, t: nat): State
    requires Positive(c) && t < |s.threads|
  {
    match s.threads[t]
    case Idle => s
    case ReadClock(op) => Goto(s, t, LoadRefill(op, s.clock))
    case LoadRefill(op, now) =>
      var elapsed := now - s.lastRefill;
      if elapsed < c.refillRate then Goto(s, t, LoadToTake(op, 0))
      else Goto(s, t, SwapRefill(op, s.lastRefill, Min(elapsed / c.refillRate, c.batchSize)))
    case SwapRefill(op, last, add) =>
      if s.lastRefill == last then Goto(s, t, LoadToAdd(op, add)).(lastRefill := last + add * c.refillRate)
      else Goto(s, t, LoadToTake(op, 0))
    case LoadToAdd(op, add) =>
      if Min(s.tokens + add, c.maxTokens) == s.tokens then Goto(s, t, LoadToTake(op, 0)).(lost := s.lost + Abs(add))
      else Goto(s, t, SwapAdd(op, add, s.tokens))
    case SwapAdd(op, add, seen) =>
      if s.tokens == seen then
        var sum := Min(seen + add, c.maxTokens);
        Goto(s, t, LoadToTake(op, 0)).(tokens := sum, lost := s.lost + Abs(seen + add - sum))
      else Goto(s, t, LoadToAdd(op, add))
    case LoadToTake(op, attempts) =>
      if s.tokens < Amount(op) then Reply(s, t, op, false) else Goto(s, t, SwapTake(op, attempts, s.tokens))
    case SwapTake(op, attempts, seen) =>
      if s.tokens == seen then Reply(s, t, op, true).(tokens := seen - Amount(op))
      else if op.AllowN? || (op.Allow? && attempts < 2) then Goto(s, t, LoadToTake(op, attempts + 1))
      else Reply(s, t, op, false)
  }

  function Abs(x: int): nat {
    if x >= 0 then x else -x
  }

  function Goto(s: State, t: nat, pc: Pc): State
    requires t < |s.threads|
  {
    s.(threads := s.threads[t := pc])
  }

  function Act(c: Config, s: State, a: Action): State
    requires Positive(c)
  {
    match a
    case Wait(d) => s.(clock := s.clock + d)
    case Begin(t, op) => if t < |s.threads| && s.threads[t].Idle? then Enter(c, s, t, op) else s
    case Run(t) => if t < |s.threads| then Step(c, s, t) else s
  }

  /** Every interleaving of n threads is a sequence of actions. */
  function Reach(c: Config, created: int, n: nat, actions: seq<Action>): State
    requires Positive(c)
  {
    if actions == [] then State(c.maxTokens, created, created, seq(n, i => Idle), [], 0)
    else Act(c, Reach(c, created, n, actions[..|actions| - 1]), actions[|actions| - 1])
  }

  function PendingSum(threads: seq<Pc>): int {
    if threads == [] then 0 else Pending(threads[0]) + PendingSum(threads[1..])
  }

  lemma {:induction false} PendingUpdate(threads: seq<Pc>, t: nat, pc: Pc)
    requires t < |threads|
    ensures PendingSum(threads[t := pc]) == PendingSum(threads) - Pending(threads[t]) + Pending(pc)
  {
    if t == 0 {
      assert threads[t := pc][1..] == threads[1..];
    } else {
      assert threads[t := pc][1..] == threads[1..][t - 1 := pc];
      PendingUpdate(threads[1..], t - 1, pc);
    }
  }

  lemma {:induction false} PendingIdle(n: nat)
    ensures PendingSum(seq(n, i => Idle)) == 0
  {
    if n > 0 {
      assert seq(n, i => Idle)[1..] == seq(n - 1, i => Idle);
      PendingIdle(n - 1);
    }
  }

  lemma {:induction false} PendingNat(threads: seq<Pc>)
    requires forall t :: 0 <= t < |threads| ==> Pending(threads[t]) >= 0
    ensures PendingSum(threads) >= 0
  {
    if threads != [] { PendingNat(threads[1..]); }
  }

  /** What a thread's locals guarantee at each point. */
  ghost predicate Sound(c: Config, clock: int, pc: Pc) {
    match pc
    case Idle => true
    case ReadClock(op) => Asks(c, op)
    case LoadRefill(op, now) => Asks(c, op) && now <= clock
    case SwapRefill(op, last, add) => Asks(c, op) && 1 <= add <= c.batchSize && last + add * c.refillRate <= clock
    case LoadToAdd(op, add) => Asks(c, op) && 1 <= add <= c.batchSize
    case SwapAdd(op, add, seen) => Asks(c, op) && 1 <= add <= c.batchSize
    case LoadToTake(op, _) => Asks(c, op)
    case SwapTake(op, _, seen) => Asks(c, op) && seen >= Amount(op)
  }

  ghost predicate Asks(c: Config, op: Op) {
    1 <= Amount(op) <= c.maxTokens
  }

  /** The account: claimed is the number of refill periods lastRefill has moved over since creation. */
  ghost predicate Balanced(c: Config, created: int, s: State, claimed: nat) {
    && 0 <= s.tokens <= c.maxTokens
    && s.lastRefill == created + claimed * c.refillRate
    && s.lastRefill <= s.clock
    && s.tokens + Grants(s) + PendingSum(s.threads) + s.lost == c.maxTokens + claimed
    && forall t :: 0 <= t < |s.threads| ==> Sound(c, s.clock, s.threads[t])
  }

  /** The new count of claimed periods after an action. */
  function Claimed(c: Config, s: State, a: Action, claimed: nat): nat {
    if a.Run? && a.t < |s.threads| && s.threads[a.t].SwapRefill? && s.lastRefill == s.threads[a.t].last
    then claimed + Abs(s.threads[a.t].add) else claimed
  }

  /** The changes a step of one thread makes to the account cancel out. */
  ghost predicate Cancels(s: State, s': State, pc: Pc, pc': Pc, moved: int) {
    s'.tokens + Grants(s') + s'.lost + Pending(pc') == s.tokens + Grants(s) + s.lost + Pending(pc) + moved
  }

  lemma AnswerAdds(s: State, s': State)
    ensures s'.answers == s.answers ==> Grants(s') == Grants(s)
    ensures |s'.answers| == |s.answers| + 1 && s.answers <= s'.answers ==>
              var a := s'.answers[|s.answers|]; Grants(s') == Grants(s) + Granted(a.op, a.taken)
  {
    if |s'.answers| == |s.answers| + 1 && s.answers <= s'.answers {
      assert s'.answers == s.answers + [s'.answers[|s.answers|]];
      GrantsMore(s.answers, s'.answers[|s.answers|]);
    }
  }

  lemma StepCancels(c: Config, s: State, t: nat, claimed: nat)
    requires Positive(c) && t < |s.threads| && Sound(c, s.clock, s.threads[t]) && 0 <= s.tokens <= c.maxTokens
    requires s.lastRefill <= s.clock
    ensures var s' := Step(c, s, t);
            var moved := Claimed(c, s, Run(t), claimed) - claimed;
            && s'.threads == s.threads[t := s'.threads[t]] && s'.clock == s.clock
            && Sound(c, s.clock, s'.threads[t]) && 0 <= s'.tokens <= c.maxTokens
            && s'.lastRefill == s.lastRefill + moved * c.refillRate <= s.clock
            && Cancels(s, s', s.threads[t], s'.threads[t], moved)
  {
    if s.threads[t].LoadRefill? && s.threads[t].now - s.lastRefill >= c.refillRate {
      BatchFits(c, s.threads[t].now - s.lastRefill);
    }
    AnswerAdds(s, Step(c, s, t));
  }

  lemma StepBalanced(c: Config, created: int, s: State, t: nat, claimed: nat)
    requires Positive(c) && Balanced(c, created, s, claimed) && t < |s.threads|
    ensures Balanced(c, created, Step(c, s, t), Claimed(c, s, Run(t), claimed))
  {
    var s', claimed' := Step(c, s, t), Claimed(c, s, Run(t), claimed);
    StepCancels(c, s, t, claimed);
    Rebalance(c, created, s, s', t, s'.threads[t], claimed, claimed');
  }

  lemma Rebalance(c: Config, created: int, s: State, s': State, t: nat, pc': Pc, claimed: nat, claimed': nat)
    requires Positive(c) && Balanced(c, created, s, claimed) && t < |s.threads|
    requires s'.threads == s.threads[t := pc'] && s'.clock == s.clock
    requires Sound(c, s.clock, pc') && 0 <= s'.tokens <= c.maxTokens
    requires s'.lastRefill == s.lastRefill + (claimed' - claimed) * c.refillRate <= s.clock
    requires Cancels(s, s', s.threads[t], pc', claimed' - claimed)
    ensures Balanced(c, created, s', claimed')
  {
    PendingUpdate(s.threads, t, pc');
    assert claimed' * c.refillRate == claimed * c.refillRate + (claimed' - claimed) * c.refillRate;
  }

  /** A batch claims at least one period and no more than have elapsed. */
  lemma BatchFits(c: Config, elapsed: int)
    requires Positive(c) && elapsed >= c.refillRate
    ensures var add := Min(elapsed / c.refillRate, c.batchSize); add >= 1 && add * c.refillRate <= elapsed
  {
    var q := elapsed / c.refillRate;
    assert elapsed == q * c.refillRate + elapsed % c.refillRate;
    if q < 1 { MulMonotone(q, 0, c.refillRate); }
    MulMonotone(Min(q, c.batchSize), q, c.refillRate);
  }

  lemma EnterBalanced(c: Config, created: int, s: State, t: nat, op: Op, claimed: nat)
    requires Positive(c) && Balanced(c, created, s, claimed) && t < |s.threads| && s.threads[t].Idle?
    ensures Balanced(c, created, Enter(c, s, t, op), claimed)
  {
    var s' := Enter(c, s, t, op);
    PendingUpdate(s.threads, t, s'.threads[t]);
    AnswerAdds(s, s');
    assert Grants(s') == Grants(s);
  }

  lemma ActBalanced(c: Config, created: int, s: State, a: Action, claimed: nat)
    requires Positive(c) && Balanced(c, created, s, claimed)
    ensures Balanced(c, created, Act(c, s, a), Claimed(c, s, a, claimed))
  {
    match a
    case Wait(d) =>
    case Begin(t, op) =>
      if t < |s.threads| && s.threads[t].Idle? { EnterBalanced(c, created, s, t, op, claimed); }
    case Run(t) =>
      if t < |s.threads| { StepBalanced(c, created, s, t, claimed); }
  }

  lemma {:induction false} AlwaysBalanced(c: Config, created: int, n: nat, actions: seq<Action>) returns (claimed: nat)
    requires Positive(c)
    ensures Balanced(c, created, Reach(c, created, n, actions), claimed)
  {
    if actions == [] {
      PendingIdle(n);
      claimed := 0;
    } else {
      var before := actions[..|actions| - 1];
      var last := AlwaysBalanced(c, created, n, before);
      var s := Reach(c, created, n, before);
      ActBalanced(c, created, s, actions[|actions| - 1], last);
      claimed := Claimed(c, s, actions[|actions| - 1], last);
    }
  }

  /**
   Token conservation over every interleaving: what is in the bucket, was granted, is claimed but not yet added, or was
   lost at the cap is exactly the initial fill plus one token for each whole period lastRefill has moved.
   */
  lemma Conservation(c: Config, created: int, n: nat, actions: seq<Action>)
    requires Positive(c)
    ensures var s := Reach(c, created, n, actions);
            && 0 <= s.tokens <= c.maxTokens
            && created <= s.lastRefill <= s.clock
            && (s.lastRefill - created) % c.refillRate == 0
            && PendingSum(s.threads) >= 0
            && s.tokens + Grants(s) + PendingSum(s.threads) + s.lost
               == c.maxTokens + (s.lastRefill - created) / c.refillRate
  {
    var s := Reach(c, created, n, actions);
    var claimed := AlwaysBalanced(c, created, n, actions);
    MulMonotone(0, claimed, c.refillRate);
    Periods(s.lastRefill - created, c.refillRate, claimed);
    PendingSound(c, created, s, claimed);
  }

  lemma PendingSound(c: Config, created: int, s: State, claimed: nat)
    requires Balanced(c, created, s, claimed)
    ensures PendingSum(s.threads) >= 0
  {
    forall t | 0 <= t < |s.threads|
      ensures Pending(s.threads[t]) >= 0
    {
      assert Sound(c, s.clock, s.threads[t]);
    }
    PendingNat(s.threads);
  }

  lemma Periods(d: int, rate: int, k: nat)
    requires rate >= 1 && d == k * rate
    ensures d / rate == k && d % rate == 0
  {
    DivUnique(d, rate, k, 0);
    assert d == (d / rate) * rate + d % rate;
  }

  /** The tokens that all answers so far hand out fit in the initial fill plus one for each refill period elapsed. */
  lemma GrantBound(c: Config, created: int, n: nat, actions: seq<Action>)
    requires Positive(c)
    ensures var s := Reach(c, created, n, actions);
            Grants(s) <= c.maxTokens + (s.clock - created) / c.refillRate
  {
    var s := Reach(c, created, n, actions);
    Conservation(c, created, n, actions);
    DivMonotone(s.lastRefill - created, s.clock - created, c.refillRate);
  }

  /** Credit is lost only to the cap: an action that loses some leaves the bucket full. */
  lemma LostOnlyAtCap(c: Config, created: int, n: nat, actions: seq<Action>, a: Action)
    requires Positive(c)
    ensures var s := Reach(c, created, n, actions);
            var s' := Act(c, s, a);
            s'.lost >= s.lost && (s'.lost > s.lost ==> s'.tokens == c.maxTokens)
  {
    var s := Reach(c, created, n, actions);
    var claimed := AlwaysBalanced(c, created, n, actions);
    if a.Run? && a.t < |s.threads| { assert Sound(c, s.clock, s.threads[a.t]); }
  }

  // ---------- when a call is refused ----------

  /** How many swaps for tokens thread t has lost since it last entered a call. */
  function LostSwaps(c: Config, created: int, n: nat, actions: seq<Action>, t: nat): nat
    requires Positive(c)
  {
    if actions == [] then 0
    else
      var before, a := actions[..|actions| - 1], actions[|actions| - 1];
      var s := Reach(c, created, n, before);
      if t >= |s.threads| || a.Wait? || a.t != t then LostSwaps(c, created, n, before, t)
      else if a.Begin? && s.threads[t].Idle? then 0
      else if a.Run? && s.threads[t].SwapTake? && s.threads[t].seen != s.tokens then
        LostSwaps(c, created, n, before, t) + 1
      else LostSwaps(c, created, n, before, t)
  }

  /** How many lost swaps end a call: Allow tries three times and Reserve once; AllowN goes on until it knows. */
  function Tries(op: Op): Option<nat> {
    match op
    case Allow => Some(3)
    case AllowN(_) => None
    case Reserve => Some(1)
  }

  ghost predicate Tried(pc: Pc, lost: nat) {
    if pc.Idle? then true
    else
      && (Tries(pc.op).Some? ==> lost < Tries(pc.op).value)
      && if pc.LoadToTake? || pc.SwapTake? then lost == pc.attempts else lost == 0
  }

  lemma TriedStep(c: Config, s: State, t: nat, lost: nat)
    requires Positive(c) && t < |s.threads| && Tried(s.threads[t], lost)
    ensures var pc := s.threads[t];
            Tried(Step(c, s, t).threads[t], lost + if pc.SwapTake? && pc.seen != s.tokens then 1 else 0)
  {
  }

  lemma OthersStay(c: Config, s: State, a: Action, t: nat)
    requires Positive(c) && t < |s.threads|
    ensures |Act(c, s, a).threads| == |s.threads|
    ensures a.Wait? || a.t != t || (a.Begin? && !s.threads[t].Idle?) ==> Act(c, s, a).threads[t] == s.threads[t]
  {
  }

  /** Whether action a is a swap for tokens that thread t loses in s. */
  predicate Loses(s: State, a: Action, t: nat) {
    t < |s.threads| && a == Run(t) && s.threads[t].SwapTake? && s.threads[t].seen != s.tokens
  }

  lemma LostMore(c: Config, created: int, n: nat, before: seq<Action>, a: Action, t: nat, s: State)
    requires Positive(c) && s == Reach(c, created, n, before) && t < |s.threads|
    ensures Reach(c, created, n, before + [a]) == Act(c, s, a)
    ensures LostSwaps(c, created, n, before + [a], t)
            == if a.Begin? && a.t == t && s.threads[t].Idle? then 0
               else LostSwaps(c, created, n, before, t) + if Loses(s, a, t) then 1 else 0
  {
    assert (before + [a])[..|before|] == before;
  }

  lemma TriedAct(c: Config, s: State, a: Action, t: nat, lost: nat, lost': nat)
    requires Positive(c) && t < |s.threads| && Tried(s.threads[t], lost)
    requires lost' == if a.Begin? && a.t == t && s.threads[t].Idle? then 0
                      else lost + if Loses(s, a, t) then 1 else 0
    ensures t < |Act(c, s, a).threads| && Tried(Act(c, s, a).threads[t], lost')
  {
    OthersStay(c, s, a, t);
    if a == Run(t) { TriedStep(c, s, t, lost); }
  }

  /** A thread in a call has lost as many swaps as its attempts say, and never as many as end the call. */
  lemma {:induction false} AttemptsMeaning(c: Config, created: int, n: nat, actions: seq<Action>, t: nat)
    requires Positive(c) && t < n
    ensures |Reach(c, created, n, actions).threads| == n
    ensures Tried(Reach(c, created, n, actions).threads[t], LostSwaps(c, created, n, actions, t))
  {
    if actions != [] {
      var before, a := actions[..|actions| - 1], actions[|actions| - 1];
      assert before + [a] == actions;
      AttemptsMeaning(c, created, n, before, t);
      LostMore(c, created, n, before, a, t, Reach(c, created, n, before));
      OthersStay(c, Reach(c, created, n, before), a, t);
      TriedAct(c, Reach(c, created, n, before), a, t, LostSwaps(c, created, n, before, t),
               LostSwaps(c, created, n, actions, t));
    }
  }

  /**
   What an answer of thread t means: a call that is told it took tokens has just taken them, and one that is refused
   found too few or has just lost the last swap that it tries.
   */
  ghost predicate AnswerMeans(s: State, s': State, t: nat, lost: nat) {
    && |s'.answers| == |s.answers| + 1 && s'.answers[..|s.answers|] == s.answers
    && var a := s'.answers[|s.answers|];
       && a.t == t && s.tokens - s'.tokens == Granted(a.op, a.taken) && (a.taken <==> s'.tokens < s.tokens)
       && (!a.taken ==> s.tokens < Amount(a.op) || Tries(a.op) == Some(lost))
  }

  lemma StepMeans(c: Config, s: State, t: nat, lost: nat, s': State)
    requires Positive(c) && t < |s.threads| && Sound(c, s.clock, s.threads[t]) && Tried(s.threads[t], lost)
    requires s' == Step(c, s, t) && s'.answers != s.answers
    ensures AnswerMeans(s, s', t, lost + if Loses(s, Run(t), t) then 1 else 0)
  {
  }

  /**
   So it is over every interleaving. Refusals that come from nothing else are those of an AllowN that asks for more than
   the bucket can hold.
   */
  lemma AnswersMeaning(c: Config, created: int, n: nat, actions: seq<Action>, t: nat, s: State, s': State)
    requires Positive(c) && t < n
    requires s == Reach(c, created, n, actions) && s' == Reach(c, created, n, actions + [Run(t)])
    requires s'.answers != s.answers
    ensures AnswerMeans(s, s', t, LostSwaps(c, created, n, actions + [Run(t)], t))
  {
    AttemptsMeaning(c, created, n, actions, t);
    LostMore(c, created, n, actions, Run(t), t, s);
    var claimed := AlwaysBalanced(c, created, n, actions);
    assert Sound(c, s.clock, s.threads[t]);
    StepMeans(c, s, t, LostSwaps(c, created, n, actions, t), s');
  }

  // ---------- what a refill claims ----------

  /** The clock when thread t last read it. */
  function ReadAt(c: Config, created: int, n: nat, actions: seq<Action>, t: nat): int
    requires Positive(c)
  {
    if actions == [] then created
    else
      var before := actions[..|actions| - 1];
      var s := Reach(c, created, n, before);
      if actions[|actions| - 1] == Run(t) && t < |s.threads| && s.threads[t].ReadClock? then s.clock
      else ReadAt(c, created, n, before, t)
  }

  /** A refill about to be claimed is a batch, or all the periods that had passed when its thread read the clock. */
  ghost predicate ClaimFits(c: Config, pc: Pc, read: int) {
    && (pc.LoadRefill? ==> pc.now == read)
    && (pc.SwapRefill? ==>
          && 1 <= pc.add <= c.batchSize && pc.last + pc.add * c.refillRate <= read
          && (pc.add < c.batchSize ==> read < pc.last + pc.add * c.refillRate + c.refillRate))
  }

  lemma BatchIsAll(c: Config, elapsed: int)
    requires Positive(c) && elapsed >= c.refillRate
    ensures var add := Min(elapsed / c.refillRate, c.batchSize);
            add < c.batchSize ==> elapsed < add * c.refillRate + c.refillRate
  {
    assert elapsed == (elapsed / c.refillRate) * c.refillRate + elapsed % c.refillRate;
  }

  lemma ClaimStep(c: Config, s: State, t: nat, read: int)
    requires Positive(c) && t < |s.threads| && ClaimFits(c, s.threads[t], read)
    ensures ClaimFits(c, Step(c, s, t).threads[t], if s.threads[t].ReadClock? then s.clock else read)
  {
    if s.threads[t].LoadRefill? && read - s.lastRefill >= c.refillRate {
      BatchFits(c, read - s.lastRefill);
      BatchIsAll(c, read - s.lastRefill);
    }
  }

  lemma {:induction false} ClaimsFit(c: Config, created: int, n: nat, actions: seq<Action>, t: nat)
    requires Positive(c) && t < n
    ensures |Reach(c, created, n, actions).threads| == n
    ensures ClaimFits(c, Reach(c, created, n, actions).threads[t], ReadAt(c, created, n, actions, t))
  {
    if actions != [] {
      var before, a := actions[..|actions| - 1], actions[|actions| - 1];
      var s := Reach(c, created, n, before);
      ClaimsFit(c, created, n, before, t);
      OthersStay(c, s, a, t);
      if a == Run(t) { ClaimStep(c, s, t, ReadAt(c, created, n, before, t)); }
    }
  }

  // ---------- windows and lag ----------

  /**
   From any reachable state on, further grants are paid for by the tokens and pending credit of that state and by one
   token per period since its lastRefill. lastRefill may lag the clock, because a refill adds at most one batch.
   */
  lemma GrantsFrom(c: Config, created: int, n: nat, before: seq<Action>, more: seq<Action>)
    requires Positive(c)
    ensures var s := Reach(c, created, n, before);
            var s' := Reach(c, created, n, before + more);
            Grants(s') - Grants(s) <= s.tokens + PendingSum(s.threads) + (s'.clock - s.lastRefill) / c.refillRate
  {
    var s, s' := Reach(c, created, n, before), Reach(c, created, n, before + more);
    var k := AlwaysBalanced(c, created, n, before);
    var k' := AlwaysBalanced(c, created, n, before + more);
    LossesGrow(c, created, n, before, more);
    assert PendingSum(s'.threads) >= 0 by { Conservation(c, created, n, before + more); }
    BalanceGap(c, created, s, s', k, k');
  }

  lemma BalanceGap(c: Config, created: int, s: State, s': State, k: nat, k': nat)
    requires Positive(c) && Balanced(c, created, s, k) && Balanced(c, created, s', k')
    requires s.lost <= s'.lost && PendingSum(s'.threads) >= 0
    ensures Grants(s') - Grants(s) <= s.tokens + PendingSum(s.threads) + (s'.clock - s.lastRefill) / c.refillRate
  {
    PeriodsBetween(created, s.lastRefill, k, s'.lastRefill, k', s'.clock, c.refillRate);
  }

  lemma PeriodsBetween(created: int, from: int, k: nat, upto: int, k': nat, now: int, rate: int)
    requires rate >= 1 && from == created + k * rate && upto == created + k' * rate && upto <= now
    ensures k' - k <= (now - from) / rate
  {
    assert (k' - k) * rate == k' * rate - k * rate;
    PeriodsFit(k' - k, now - from, rate);
  }

  lemma PeriodsFit(k: int, x: int, rate: int)
    requires rate >= 1 && k * rate <= x
    ensures k <= x / rate
  {
    DivUnique(k * rate, rate, k, 0);
    DivMonotone(k * rate, x, rate);
  }

  lemma {:induction false} LossesGrow(c: Config, created: int, n: nat, before: seq<Action>, more: seq<Action>)
    requires Positive(c)
    ensures Reach(c, created, n, before).lost <= Reach(c, created, n, before + more).lost
  {
    if more == [] {
      assert before + more == before;
    } else {
      var k := |more| - 1;
      assert (before + more)[..|before + more| - 1] == before + more[..k];
      LossesGrow(c, created, n, before, more[..k]);
    }
  }

  /** How many periods x takes up, a begun one counting as a whole. */
  function PeriodsUp(x: int, rate: int): int
    requires rate >= 1
  {
    if x % rate == 0 then x / rate else x / rate + 1
  }

  lemma PeriodsUpFit(x: int, d: int, rate: int)
    requires rate >= 1
    ensures (x + d) / rate <= PeriodsUp(x, rate) + d / rate
  {
    var q := PeriodsUp(x, rate);
    assert x == (x / rate) * rate + x % rate;
    assert q * rate >= x by {
      if x % rate != 0 { assert q * rate == (x / rate) * rate + rate; }
    }
    DivMonotone(x + d, d - (-q) * rate, rate);
    R.DivShift(d, -q, rate);
  }

  /**
   From a reachable state on, whatever the threads do, a window is bounded as in the original if the tokens, the pending
   credit and the periods lastRefill lags behind together exceed the capacity by one at most.
   */
  lemma WindowKept(c: Config, created: int, n: nat, before: seq<Action>, more: seq<Action>)
    requires Positive(c)
    requires var s := Reach(c, created, n, before);
             s.tokens + PendingSum(s.threads) + PeriodsUp(s.clock - s.lastRefill, c.refillRate) <= c.maxTokens + 1
    ensures var s, s' := Reach(c, created, n, before), Reach(c, created, n, before + more);
            Grants(s') - Grants(s) <= c.maxTokens + (s'.clock - s.clock) / c.refillRate + 1
  {
    var s, s' := Reach(c, created, n, before), Reach(c, created, n, before + more);
    GrantsFrom(c, created, n, before, more);
    PeriodsUpFit(s.clock - s.lastRefill, s'.clock - s.clock, c.refillRate);
  }

  // ---------- windows of a single caller ----------

  datatype Visit = Visit(at: int, op: Op)

  /** The calls come one after the other, none before start nor after end. */
  ghost predicate Timed(start: int, calls: seq<Visit>, end: int)
    decreases |calls|
  {
    if calls == [] then start <= end else start <= calls[0].at && Timed(calls[0].at, calls[1..], end)
  }

  /** The tokens that a bucket grants to the calls. */
  function Taken(c: Config, b: R.Bucket, calls: seq<Visit>): nat
    requires Positive(c)
    decreases |calls|
  {
    if calls == [] then 0
    else
      var (b', taken) := Call(c, b, calls[0].at, calls[0].op);
      Granted(calls[0].op, taken) + Taken(c, b', calls[1..])
  }

  function Served(c: Config, b: R.Bucket, calls: seq<Visit>): R.Bucket
    requires Positive(c)
    decreases |calls|
  {
    if calls == [] then b else Served(c, Call(c, b, calls[0].at, calls[0].op).0, calls[1..])
  }

  ghost predicate Fits(c: Config, b: R.Bucket, now: int) {
    Positive(c) && c.batchSize <= c.maxTokens && 0 <= b.tokens <= c.maxTokens && b.lastRefill <= now
  }

  /** How many periods a refill at time now claims. */
  function Added(c: Config, b: R.Bucket, now: int): int
    requires Positive(c)
  {
    Min(c.batchSize, (now - b.lastRefill) / c.refillRate)
  }

  /** What is left of the tokens once a refill at time now has pushed some over the cap. */
  function Kept(c: Config, b: R.Bucket, now: int): int
    requires Positive(c)
  {
    b.tokens - Max(0, b.tokens + Added(c, b, now) - c.maxTokens)
  }

  lemma RefillAdds(c: Config, b: R.Bucket, now: int)
    requires Fits(c, b, now)
    ensures Added(c, b, now) >= 0
    ensures Refilled(c, b, now)
            == R.Bucket(Kept(c, b, now) + Added(c, b, now), b.lastRefill + Added(c, b, now) * c.refillRate)
    ensures Fits(c, Refilled(c, b, now), now)
  {
    var elapsed := now - b.lastRefill;
    DivMonotone(0, elapsed, c.refillRate);
    if elapsed < c.refillRate {
      DivUnique(elapsed, c.refillRate, 0, elapsed);
    } else {
      BatchFits(c, elapsed);
    }
  }

  /** The lag of lastRefill, in whole periods. */
  function Lag(c: Config, b: R.Bucket, now: int): int
    requires Positive(c)
  {
    (now - b.lastRefill) / c.refillRate
  }

  lemma LagFalls(c: Config, b: R.Bucket, now: int, t: int)
    requires Fits(c, b, now)
    ensures Lag(c, Refilled(c, b, now), t) == Lag(c, b, t) - Added(c, b, now)
  {
    RefillAdds(c, b, now);
    R.DivShift(t - b.lastRefill, Added(c, b, now), c.refillRate);
  }

  lemma LagGrows(c: Config, b: R.Bucket, now: int, later: int)
    requires Fits(c, b, now) && now <= later
    ensures 0 <= Lag(c, b, now) <= Lag(c, b, later) && Added(c, b, now) <= Added(c, b, later)
    ensures 0 <= Kept(c, b, later) <= Kept(c, b, now)
  {
    DivMonotone(0, now - b.lastRefill, c.refillRate);
    DivMonotone(now - b.lastRefill, later - b.lastRefill, c.refillRate);
  }

  /**
   What a single caller is told, for any operation: AllowN(n) takes all or nothing, and does not even refill for n below
   1 or above the capacity; otherwise up to a batch of periods is added, capped, before the tokens are taken.
   */
  lemma CallMeaning(c: Config, b: R.Bucket, now: int, op: Op)
    requires Fits(c, b, now)
    ensures var (b', taken) := Call(c, b, now, op);
            var n, periods := Amount(op), Min(c.batchSize, (now - b.lastRefill) / c.refillRate);
            var have := Min(b.tokens + periods, c.maxTokens);
            if n < 1 then taken && b' == b
            else if n > c.maxTokens then !taken && b' == b
            else
              && (taken <==> n <= have) && b'.tokens == have - (if taken then n else 0)
              && b'.lastRefill == b.lastRefill + periods * c.refillRate
  {
    RefillAdds(c, b, now);
  }

  /** A call that refills: the grant and what is left afterwards come out of the tokens kept and the periods claimed. */
  lemma CallAccount(c: Config, b: R.Bucket, now: int, op: Op, t: int)
    requires Fits(c, b, now)
    ensures var (b', taken) := Call(c, b, now, op);
            && Fits(c, b', now)
            && ((b' == b && Granted(op, taken) == 0)
                || (b'.tokens + Granted(op, taken) == Kept(c, b, now) + Added(c, b, now)
                    && Lag(c, b', t) == Lag(c, b, t) - Added(c, b, now)))
  {
    RefillAdds(c, b, now);
    LagFalls(c, b, now, t);
  }

  /**
   Calls from now to end take no more than the tokens kept by a refill at now and one token for each period up to end.
   */
  lemma {:induction false} TakenBound(c: Config, b: R.Bucket, now: int, calls: seq<Visit>, end: int)
    requires Fits(c, b, now) && Timed(now, calls, end)
    ensures now <= end && Taken(c, b, calls) <= Kept(c, b, now) + Lag(c, b, end)
    decreases |calls|
  {
    if calls == [] {
      LagGrows(c, b, now, end);
    } else {
      var at, op := calls[0].at, calls[0].op;
      var (b', taken) := Call(c, b, at, op);
      CallAccount(c, b, at, op, end);
      TakenBound(c, b', at, calls[1..], end);
      LagGrows(c, b, now, at);
      LagGrows(c, b', at, at);
    }
  }

  lemma {:induction false} TakenMore(c: Config, b: R.Bucket, calls: seq<Visit>, v: Visit)
    requires Positive(c)
    ensures Taken(c, b, calls + [v])
            == Taken(c, b, calls) + Granted(v.op, Call(c, Served(c, b, calls), v.at, v.op).1)
    decreases |calls|
  {
    if calls == [] {
      assert (calls + [v])[1..] == [];
    } else {
      assert (calls + [v])[1..] == calls[1..] + [v];
      TakenMore(c, Call(c, b, calls[0].at, calls[0].op).0, calls[1..], v);
    }
  }

  lemma {:induction false} TimedMore(start: int, calls: seq<Visit>, end: int, v: Visit)
    requires Timed(start, calls, end) && end <= v.at
    ensures Timed(start, calls + [v], v.at)
    decreases |calls|
  {
    if calls == [] {
      assert (calls + [v])[1..] == [];
    } else {
      assert (calls + [v])[1..] == calls[1..] + [v];
      TimedMore(calls[0].at, calls[1..], end, v);
    }
  }

  /** What lastRefill lags behind beyond whole periods. */
  function Rest(c: Config, b: R.Bucket, now: int): int
    requires Positive(c)
  {
    (now - b.lastRefill) % c.refillRate
  }

  lemma RestStays(c: Config, b: R.Bucket, now: int)
    requires Fits(c, b, now)
    ensures Rest(c, Refilled(c, b, now), now) == Rest(c, b, now)
    ensures Lag(c, b, now) == 0 ==> Rest(c, b, now) == now - b.lastRefill
  {
    var rate, add := c.refillRate, Added(c, b, now);
    RefillAdds(c, b, now);
    var q, rest := Lag(c, b, now), Rest(c, b, now);
    assert now - b.lastRefill == q * rate + rest;
    assert q * rate - add * rate == (q - add) * rate;
    DivUnique(now - b.lastRefill - add * rate, rate, q - add, rest);
  }

  /** A call at time now that takes every token there is after its refill. */
  lemma TakeBatch(c: Config, b: R.Bucket, now: int) returns (v: Visit, left: R.Bucket)
    requires Fits(c, b, now) && Kept(c, b, now) + Added(c, b, now) > 0
    ensures v.at == now && Call(c, b, now, v.op) == (left, true)
    ensures Granted(v.op, true) == Kept(c, b, now) + Added(c, b, now)
    ensures Fits(c, left, now) && left.tokens == 0 && Kept(c, left, now) == 0
    ensures Lag(c, left, now) == Lag(c, b, now) - Added(c, b, now) && Rest(c, left, now) == Rest(c, b, now)
  {
    RefillAdds(c, b, now);
    LagFalls(c, b, now, now);
    RestStays(c, b, now);
    var r := Refilled(c, b, now);
    v, left := Visit(now, AllowN(r.tokens)), R.Bucket(0, r.lastRefill);
    LagGrows(c, left, now, now);
  }

  lemma TakenFirst(c: Config, b: R.Bucket, v: Visit, calls: seq<Visit>)
    requires Positive(c)
    ensures var (b', taken) := Call(c, b, v.at, v.op);
            && Taken(c, b, [v] + calls) == Granted(v.op, taken) + Taken(c, b', calls)
            && Served(c, b, [v] + calls) == Served(c, b', calls)
  {
    assert ([v] + calls)[1..] == calls;
  }

  lemma TimedFirst(v: Visit, calls: seq<Visit>, end: int)
    requires Timed(v.at, calls, end)
    ensures Timed(v.at, [v] + calls, end)
  {
    assert ([v] + calls)[1..] == calls;
  }

  /**
   Taking, at one instant, all there is after each batch: nothing is lost but what the first refill pushes over the
   cap.
   */
  lemma {:induction false} Drain(c: Config, b: R.Bucket, now: int) returns (calls: seq<Visit>)
    requires Fits(c, b, now)
    ensures Timed(now, calls, now)
    ensures Taken(c, b, calls) == Kept(c, b, now) + Lag(c, b, now)
    ensures Served(c, b, calls) == R.Bucket(0, now - Rest(c, b, now))
    decreases Lag(c, b, now)
  {
    LagGrows(c, b, now, now);
    var added := Added(c, b, now);
    if Kept(c, b, now) + added == 0 {
      calls := [];
      RestStays(c, b, now);
    } else {
      var v, left := TakeBatch(c, b, now);
      var rest := [];
      if added > 0 {
        rest := Drain(c, left, now);
      } else {
        RestStays(c, left, now);
      }
      calls := [v] + rest;
      TakenFirst(c, b, v, rest);
      TimedFirst(v, rest, now);
    }
  }

  /** A period after lastRefill, a drained bucket grants one token. */
  lemma NextTick(c: Config, end: int)
    requires Positive(c)
    ensures Granted(Allow, Call(c, R.Bucket(0, end - c.refillRate), end, Allow).1) == 1
  {
    DivUnique(c.refillRate, c.refillRate, 1, 0);
  }

  /**
   From now on until the next whole period is over, all the tokens kept and one for each period, begun ones included,
   go.
   */
  lemma TakeAll(c: Config, b: R.Bucket, now: int) returns (calls: seq<Visit>, end: int)
    requires Fits(c, b, now)
    ensures Timed(now, calls, end) && (end - now) / c.refillRate == 0
    ensures Taken(c, b, calls) == Kept(c, b, now) + PeriodsUp(now - b.lastRefill, c.refillRate)
  {
    calls := Drain(c, b, now);
    end := now;
    if Rest(c, b, now) > 0 {
      end := now + c.refillRate - Rest(c, b, now);
      NextTick(c, end);
      TakenMore(c, b, calls, Visit(end, Allow));
      TimedMore(now, calls, now, Visit(end, Allow));
      calls := calls + [Visit(end, Allow)];
    }
    DivUnique(end - now, c.refillRate, 0, end - now);
  }

  /**
   However a single caller uses Allow, AllowN and Reserve from now on, every window that begins now is bounded as in
   the original. A window that begins later may not be: WindowBoundFails.
   */
  ghost predicate KeepsBound(c: Config, b: R.Bucket, now: int)
    requires Positive(c)
  {
    forall calls, end ::
      Timed(now, calls, end) ==> Taken(c, b, calls) <= Max(0, c.maxTokens) + (end - now) / c.refillRate + 1
  }

  /**
   The original's bound holds for the windows that begin now exactly if the tokens that a refill at once would not push
   over the cap, and the periods that lastRefill lags behind, together exceed the capacity by one at most.
   */
  lemma WindowExact(c: Config, b: R.Bucket, now: int)
    requires Fits(c, b, now)
    ensures KeepsBound(c, b, now)
            <==> b.tokens - Max(0, b.tokens + Min(c.batchSize, (now - b.lastRefill) / c.refillRate) - c.maxTokens)
                 + PeriodsUp(now - b.lastRefill, c.refillRate) <= c.maxTokens + 1
  {
    var total := Kept(c, b, now) + PeriodsUp(now - b.lastRefill, c.refillRate);
    if total <= c.maxTokens + 1 {
      forall calls, end | Timed(now, calls, end)
        ensures Taken(c, b, calls) <= Max(0, c.maxTokens) + (end - now) / c.refillRate + 1
      {
        TakenBound(c, b, now, calls, end);
        PeriodsUpFit(now - b.lastRefill, end - now, c.refillRate);
        assert end - b.lastRefill == (now - b.lastRefill) + (end - now);
      }
    } else {
      var calls, end := TakeAll(c, b, now);
      assert Taken(c, b, calls) > Max(0, c.maxTokens) + (end - now) / c.refillRate + 1;
    }
  }

  /**
   For every configuration the bound breaks once the limiter has been idle: a full bucket keeps it as long as
   lastRefill is no more than a batch and one period behind, and no longer.
   */
  lemma WindowBoundFails(c: Config, created: int, idle: int)
    requires Positive(c) && c.batchSize <= c.maxTokens && idle >= 0
    ensures KeepsBound(c, R.Bucket(c.maxTokens, created), created + idle) <==> idle <= (c.batchSize + 1) * c.refillRate
  {
    var rate := c.refillRate;
    var q, rest := idle / rate, idle % rate;
    assert idle == q * rate + rest;
    DivMonotone(0, idle, rate);
    WindowExact(c, R.Bucket(c.maxTokens, created), created + idle);
    if q <= c.batchSize {
      MulMonotone(q + 1, c.batchSize + 1, rate);
      assert (q + 1) * rate == q * rate + rate;
    } else {
      MulMonotone(c.batchSize + 1, q, rate);
      if q > c.batchSize + 1 { MulMonotone(c.batchSize + 2, q, rate); }
      assert (c.batchSize + 2) * rate == (c.batchSize + 1) * rate + rate;
    }
  }

  /** How many of k calls of Allow at one instant are granted, one caller at a time. */
  function Burst(c: Config, b: R.Bucket, now: int, k: nat): nat
    requires Positive(c)
    decreases k
  {
    if k == 0 then 0
    else
      var (b', granted) := Call(c, b, now, Allow);
      (if granted then 1 else 0) + Burst(c, b', now, k - 1)
  }

  /** While lastRefill lags by a period, Allow adds at least one token before it takes one, so it is granted. */
  lemma {:induction false} LagGrants(c: Config, b: R.Bucket, now: int, k: nat)
    requires Positive(c) && 0 <= b.tokens <= c.maxTokens
    requires now - b.lastRefill >= k * (c.batchSize * c.refillRate)
    ensures Burst(c, b, now, k) == k
    decreases k
  {
    var lump := c.batchSize * c.refillRate;
    if k > 0 {
      assert k * lump == (k - 1) * lump + lump && lump >= c.refillRate by {
        MulMonotone(1, c.batchSize, c.refillRate);
      }
      MulMonotone(0, k - 1, lump);
      LagStep(c, b, now);
      LagGrants(c, Call(c, b, now, Allow).0, now, k - 1);
    }
  }

  lemma LagStep(c: Config, b: R.Bucket, now: int)
    requires Positive(c) && 0 <= b.tokens <= c.maxTokens && now - b.lastRefill >= c.refillRate
    ensures var (b', granted) := Call(c, b, now, Allow);
            && granted && 0 <= b'.tokens <= c.maxTokens
            && now - b'.lastRefill >= now - b.lastRefill - c.batchSize * c.refillRate
  {
    BatchFits(c, now - b.lastRefill);
    var add := Min((now - b.lastRefill) / c.refillRate, c.batchSize);
    MulMonotone(add, c.batchSize, c.refillRate);
  }

  /**
   The configuration in force, whatever the arguments: an empty bucket fills in the given period, short of it by less
   than a nanosecond per token; but never faster than one token a nanosecond, which takes longer when there are more
   tokens than nanoseconds in the period. A refill adds at most a tenth of the bucket, or one token when that is less
   or the period is under a second.
   */
  lemma FillTime(maxTokens: int, refillRate: int)
    ensures var c := Configure(maxTokens, refillRate);
            var period := if refillRate <= 0 then SECOND else refillRate;
            && c.maxTokens == Max(1, maxTokens)
            && (c.maxTokens <= period ==> 0 <= period - c.maxTokens * c.refillRate < c.maxTokens)
            && (c.maxTokens > period ==> c.refillRate == 1)
            && c.batchSize == if period < SECOND then 1 else Max(1, c.maxTokens / 10)
  {
    ShareOf(if refillRate <= 0 then SECOND else refillRate, Max(1, maxTokens));
  }

  lemma ShareOf(period: int, max: int)
    requires period >= 1 && max >= 1
    ensures max <= period ==> period / max >= 1 && 0 <= period - max * (period / max) < max
    ensures max > period ==> period / max == 0
  {
    var q := period / max;
    assert period == q * max + period % max;
    if max <= period {
      DivMonotone(max, period, max);
      DivUnique(max, max, 1, 0);
    } else {
      DivUnique(period, max, 0, period);
    }
  }

  /**
   Built with the same arguments, the two limiters have the same capacity and refill at the same pace exactly when the
   arguments are positive and one of them is 1: the original takes refillRate per token, this one per full bucket.
   */
  lemma SamePace(maxTokens: int, refillRate: int)
    ensures var c := Configure(maxTokens, refillRate);
            c.maxTokens == maxTokens && c.refillRate == refillRate
            <==> maxTokens >= 1 && refillRate >= 1 && (maxTokens == 1 || refillRate == 1)
  {
    if maxTokens >= 1 && refillRate >= 1 {
      var q := refillRate / maxTokens;
      assert refillRate == q * maxTokens + refillRate % maxTokens;
      DivMonotone(0, refillRate, maxTokens);
      if maxTokens == 1 {
        DivUnique(refillRate, 1, refillRate, 0);
      } else {
        MulMonotone(2, maxTokens, 1);
        if q >= 1 { MulTwice(q, maxTokens); }
      }
    }
  }

  lemma MulTwice(q: int, m: int)
    requires q >= 1 && m >= 2
    ensures q * m >= 2 * q
  {
    assert (m - 2) * q >= 0;
    assert q * m == (m - 2) * q + 2 * q;
  }

  // ---------- a thread that runs alone ----------

  function Alone(c: Config, s: State, t: nat, steps: nat): State
    requires Positive(c) && t < |s.threads|
    decreases steps
  {
    if steps == 0 then s else Alone(c, Step(c, s, t), t, steps - 1)
  }

  lemma {:induction false} AloneMore(c: Config, s: State, t: nat, a: nat, b: nat)
    requires Positive(c) && t < |s.threads|
    ensures |Alone(c, s, t, a).threads| == |s.threads|
    ensures Alone(c, s, t, a + b) == Alone(c, Alone(c, s, t, a), t, b)
    decreases a
  {
    if a > 0 { AloneMore(c, Step(c, s, t), t, a - 1, b); }
  }

  /** The refill part of a call that no other thread interrupts. */
  lemma AloneRefill(c: Config, s: State, t: nat, op: Op) returns (k: nat)
    requires Positive(c) && t < |s.threads| && s.threads[t] == ReadClock(op) && 0 <= s.tokens <= c.maxTokens
    ensures var s' := Alone(c, s, t, k);
            && s'.threads == s.threads[t := LoadToTake(op, 0)] && s'.clock == s.clock
            && Grants(s') == Grants(s) && s'.answers == s.answers
            && R.Bucket(s'.tokens, s'.lastRefill) == Refilled(c, R.Bucket(s.tokens, s.lastRefill), s.clock)
  {
    k := 2;
    AloneMore(c, s, t, 1, 1);
    var s2 := Alone(c, s, t, 2);
    assert s2 == Step(c, Step(c, s, t), t);
    if s.clock - s.lastRefill >= c.refillRate {
      BatchFits(c, s.clock - s.lastRefill);
      var s4 := Step(c, Step(c, s2, t), t);
      AloneMore(c, s2, t, 1, 1);
      if s4.threads[t].LoadToTake? {
        k := 4;
        AloneMore(c, s, t, 2, 2);
      } else {
        k := 5;
        AloneMore(c, s2, t, 2, 1);
        AloneMore(c, s, t, 2, 3);
      }
    }
  }

  /** A call whose atomic actions no other thread interrupts does exactly what the sequential call does. */
  lemma AloneCall(c: Config, s: State, t: nat, op: Op) returns (k: nat)
    requires Positive(c) && t < |s.threads| && s.threads[t].Idle? && 0 <= s.tokens <= c.maxTokens
    ensures var s' := Alone(c, Act(c, s, Begin(t, op)), t, k);
            var (b, taken) := Call(c, R.Bucket(s.tokens, s.lastRefill), s.clock, op);
            && s'.threads == s.threads && s'.clock == s.clock && R.Bucket(s'.tokens, s'.lastRefill) == b
            && s'.answers == s.answers + [Answer(t, op, taken)]
            && Grants(s') == Grants(s) + Granted(op, taken)
  {
    var s0 := Act(c, s, Begin(t, op));
    if s0.threads[t].Idle? {
      k := 0;
    } else {
      var r := AloneRefill(c, s0, t, op);
      var s1 := Alone(c, s0, t, r);
      AloneMore(c, s0, t, r, 2);
      AloneMore(c, s1, t, 1, 1);
      k := r + 2;
      assert Alone(c, s0, t, k) == Step(c, Step(c, s1, t), t);
    }
  }
}
