/**
 The log of a request, event by event: what may come next, with which time, answer, reply and delay, and when the
 request is over. No other log is possible, so nothing is sent, recorded, charged or retried but as said here.
 */
module RetryTrace {
  import opened Base
  import opened RetryLoop

  /** The number of the attempt in progress, in a request whose log begins at base. */
  function Tries(log: seq<Event>, base: nat): nat {
    if |log| <= base then 0
    else Tries(log[..|log| - 1], base) + if log[|log| - 1].Retrying? then 1 else 0
  }

  /** An attempt begins here. */
  predicate Opening(log: seq<Event>, base: nat) {
    |log| == base || (|log| > base && log[|log| - 1].Retrying?)
  }

  /** A reply has just come and been recorded at the breaker. */
  predicate Replied(log: seq<Event>, base: nat) {
    |log| >= base + 2 && log[|log| - 2].Sent? && (log[|log| - 1].RecordedFailure? || log[|log| - 1].RecordedSuccess?)
  }

  /** What the policy or the retry condition says about that reply. */
  function Verdict(c: Config, env: Env, log: seq<Event>, base: nat): Option<int>
    requires Replied(log, base)
  {
    Decide(c, log[|log| - 2].reply, Tries(log, base), env.draws(|log|))
  }

  /**
   Whether e may come after the events before. Limiter, breaker and budget are asked with the clock as it reads then.
   */
  ghost predicate Fitting(c: Config, env: Env, base: nat, before: seq<Event>, e: Event) {
    var n := |before|;
    match e
    case Limited(now, granted) =>
      Opening(before, base) && c.limiter.Some? && now == env.clock(n)
    case Asked(now, granted) =>
      && now == env.clock(n)
      && if c.limiter.Some? then n > base && before[n - 1].Limited? && before[n - 1].granted else Opening(before, base)
    case Sent(reply) =>
      n > base && before[n - 1].Asked? && before[n - 1].granted && reply == env.replies(n)
    case RecordedFailure(now) =>
      n > base && before[n - 1].Sent? && Failed(before[n - 1].reply) && now == env.clock(n)
    case RecordedSuccess =>
      n > base && before[n - 1].Sent? && !Failed(before[n - 1].reply)
    case Budgeted(now, granted) =>
      c.budget.Some? && Replied(before, base) && Verdict(c, env, before, base).Some? && now == env.clock(n)
    case Retrying(attempt, delay) =>
      && attempt == Tries(before, base) + 1
      && if c.budget.Some? then
           && n > base && before[n - 1].Budgeted? && before[n - 1].granted
           && Replied(before[..n - 1], base) && Verdict(c, env, before[..n - 1], base) == Some(delay)
         else Replied(before, base) && Verdict(c, env, before, base) == Some(delay)
  }

  /** Every event of the log from base on fits the ones before it. */
  ghost predicate Traced(c: Config, env: Env, base: nat, log: seq<Event>) {
    |log| >= base
    && (|log| > base ==>
          && Traced(c, env, base, log[..|log| - 1])
          && Fitting(c, env, base, log[..|log| - 1], log[|log| - 1]))
  }

  /** The request is over: something was refused, or the reply to its last send was not to be retried. */
  ghost predicate Ends(c: Config, env: Env, base: nat, log: seq<Event>, result: Result) {
    && |log| > base
    && var e := log[|log| - 1];
       match result
       case RateLimited => e.Limited? && !e.granted
       case CircuitOpen => e.Asked? && !e.granted
       case BudgetExceeded => e.Budgeted? && !e.granted
       case Network(err) =>
         && Replied(log, base) && Verdict(c, env, log, base) == None
         && log[|log| - 2].reply.Broken? && log[|log| - 2].reply.err == err
       case Answered(response) =>
         && Replied(log, base) && Verdict(c, env, log, base) == None
         && log[|log| - 2].reply == Got(response)
  }

  lemma TraceMore(c: Config, env: Env, base: nat, log: seq<Event>, e: Event)
    requires Traced(c, env, base, log) && Fitting(c, env, base, log, e)
    ensures Traced(c, env, base, log + [e])
    ensures Tries(log + [e], base) == Tries(log, base) + if e.Retrying? then 1 else 0
  {
    assert (log + [e])[..|log|] == log;
  }

  lemma LimiterTraced(c: Config, env: Env, base: nat, w: World)
    requires Traced(c, env, base, w.log) && Opening(w.log, base)
    ensures var (w1, admitted) := AskLimiter(c, env, w);
            && Traced(c, env, base, w1.log)
            && Tries(w1.log, base) == Tries(w.log, base)
            && (c.limiter.None? ==> admitted && w1 == w)
            && (c.limiter.Some? ==> w1.log == w.log + [Limited(env.clock(|w.log|), admitted)])
  {
    var (w1, admitted) := AskLimiter(c, env, w);
    if c.limiter.Some? { TraceMore(c, env, base, w.log, Limited(env.clock(|w.log|), admitted)); }
  }

  lemma BreakerTraced(c: Config, env: Env, base: nat, w: World)
    requires Traced(c, env, base, w.log)
    requires Admitted(c, w.log, base)
    ensures var (w1, granted) := AskBreaker(c, env, w);
            && Traced(c, env, base, w1.log)
            && Tries(w1.log, base) == Tries(w.log, base)
            && w1.log == w.log + [Asked(env.clock(|w.log|), granted)]
  {
    var (w1, granted) := AskBreaker(c, env, w);
    TraceMore(c, env, base, w.log, Asked(env.clock(|w.log|), granted));
  }

  /** Sending and recording. */
  lemma ReplyTraced(c: Config, env: Env, base: nat, w: World)
    requires Traced(c, env, base, w.log)
    requires |w.log| > base && w.log[|w.log| - 1].Asked? && w.log[|w.log| - 1].granted
    ensures var (w1, reply) := Transmit(env, w);
            var w2 := Record(c, env, w1, reply);
            && Traced(c, env, base, w2.log) && Tries(w2.log, base) == Tries(w.log, base)
            && Replied(w2.log, base) && w2.log[|w2.log| - 2] == Sent(reply)
  {
    var (w1, reply) := Transmit(env, w);
    TraceMore(c, env, base, w.log, Sent(reply));
    var e := if Failed(reply) then RecordedFailure(env.clock(|w1.log|)) else RecordedSuccess;
    TraceMore(c, env, base, w1.log, e);
  }

  lemma BudgetTraced(c: Config, env: Env, base: nat, w: World)
    requires Traced(c, env, base, w.log)
    requires Replied(w.log, base) && Verdict(c, env, w.log, base).Some?
    ensures var (w1, affordable) := AskBudget(c, env, w);
            && Traced(c, env, base, w1.log)
            && Tries(w1.log, base) == Tries(w.log, base)
            && (c.budget.None? ==> affordable && w1 == w)
            && (c.budget.Some? ==> w1.log == w.log + [Budgeted(env.clock(|w.log|), affordable)])
  {
    var (w1, affordable) := AskBudget(c, env, w);
    if c.budget.Some? { TraceMore(c, env, base, w.log, Budgeted(env.clock(|w.log|), affordable)); }
  }

  lemma ScheduleTraced(c: Config, env: Env, base: nat, w: World, delay: int, asked: World)
    requires Traced(c, env, base, asked.log) && Replied(w.log, base)
    requires Verdict(c, env, w.log, base) == Some(delay) && Tries(asked.log, base) == Tries(w.log, base)
    requires if c.budget.Some? then asked.log == w.log + [Budgeted(env.clock(|w.log|), true)] else asked == w
    ensures var w' := Schedule(asked, Tries(w.log, base) + 1, delay);
            && Traced(c, env, base, w'.log)
            && Opening(w'.log, base) && Tries(w'.log, base) == Tries(w.log, base) + 1
  {
    if c.budget.Some? { assert asked.log[..|asked.log| - 1] == w.log; }
    TraceMore(c, env, base, asked.log, Retrying(Tries(w.log, base) + 1, delay));
  }

  /** Where an attempt leaves the request: at the next one, or at its end. */
  ghost predicate Left(c: Config, env: Env, base: nat, attempt: nat, w: World, result: Option<Result>) {
    && Traced(c, env, base, w.log)
    && (result.None? ==> Opening(w.log, base) && Tries(w.log, base) == attempt + 1)
    && (result.Some? ==> Ends(c, env, base, w.log, result.value))
  }

  lemma EndsByVerdict(c: Config, env: Env, base: nat, log: seq<Event>, reply: Reply)
    requires Replied(log, base) && log[|log| - 2] == Sent(reply) && Verdict(c, env, log, base) == None
    ensures Ends(c, env, base, log, ResultOf(reply))
  {
  }

  lemma EndsByBudget(c: Config, env: Env, base: nat, log: seq<Event>, now: int)
    requires |log| >= base
    ensures Ends(c, env, base, log + [Budgeted(now, false)], BudgetExceeded)
  {
  }

  lemma AffordTraced(c: Config, env: Env, base: nat, w: World, delay: int, asked: World, affordable: bool, next: World)
    requires Traced(c, env, base, w.log) && Replied(w.log, base) && Verdict(c, env, w.log, base) == Some(delay)
    requires (asked, affordable) == AskBudget(c, env, w) && next == Schedule(asked, Tries(w.log, base) + 1, delay)
    ensures affordable ==> Left(c, env, base, Tries(w.log, base), next, None)
    ensures !affordable ==> Left(c, env, base, Tries(w.log, base), asked, Some(BudgetExceeded))
  {
    BudgetTraced(c, env, base, w);
    if affordable {
      ScheduleTraced(c, env, base, w, delay, asked);
    } else {
      EndsByBudget(c, env, base, w.log, env.clock(|w.log|));
    }
  }

  lemma JudgeTraced(c: Config, env: Env, base: nat, w: World, reply: Reply, attempt: nat,
                    w': World, result: Option<Result>)
    requires Traced(c, env, base, w.log) && attempt == Tries(w.log, base)
    requires Replied(w.log, base) && w.log[|w.log| - 2] == Sent(reply)
    requires (w', result) == Judge(c, env, w, reply, attempt)
    ensures Left(c, env, base, attempt, w', result)
  {
    var delay := Verdict(c, env, w.log, base);
    if delay.None? {
      EndsByVerdict(c, env, base, w.log, reply);
    } else {
      var (asked, affordable) := AskBudget(c, env, w);
      AffordTraced(c, env, base, w, delay.value, asked, affordable, Schedule(asked, attempt + 1, delay.value));
    }
  }

  /** The breaker may be asked now. */
  predicate Admitted(c: Config, log: seq<Event>, base: nat) {
    if c.limiter.Some? then |log| > base && log[|log| - 1].Limited? && log[|log| - 1].granted else Opening(log, base)
  }

  lemma ProceedTraced(c: Config, env: Env, base: nat, w: World, attempt: nat, w': World, result: Option<Result>)
    requires Traced(c, env, base, w.log) && Admitted(c, w.log, base) && attempt == Tries(w.log, base)
    requires (w', result) == Proceed(c, env, w, attempt)
    ensures Left(c, env, base, attempt, w', result)
  {
    var (w1, closed) := AskBreaker(c, env, w);
    BreakerTraced(c, env, base, w);
    if closed {
      var (w2, reply) := Transmit(env, w1);
      ReplyTraced(c, env, base, w1);
      JudgeTraced(c, env, base, Record(c, env, w2, reply), reply, attempt, w', result);
    }
  }

  lemma AttemptTraced(c: Config, env: Env, base: nat, w: World, attempt: nat, w': World, result: Option<Result>)
    requires Traced(c, env, base, w.log) && Opening(w.log, base) && attempt == Tries(w.log, base)
    requires (w', result) == Attempt(c, env, w, attempt)
    ensures Left(c, env, base, attempt, w', result)
  {
    var (w1, admitted) := AskLimiter(c, env, w);
    LimiterTraced(c, env, base, w);
    if admitted { ProceedTraced(c, env, base, w1, attempt, w', result); }
  }

  /** The log of a whole request, and its result. */
  ghost predicate Complete(c: Config, env: Env, base: nat, done: (World, Result)) {
    Traced(c, env, base, done.0.log) && Ends(c, env, base, done.0.log, done.1)
  }

  ghost predicate Open(c: Config, env: Env, base: nat, w: World, attempt: int) {
    Traced(c, env, base, w.log) && Opening(w.log, base) && attempt == Tries(w.log, base)
  }

  ghost predicate Over(c: Config, env: Env, base: nat, w: World, result: Result) {
    Traced(c, env, base, w.log) && Ends(c, env, base, w.log, result)
  }

  /** Every request, whatever came before: each event of its log fits the earlier ones, and its end fits its result. */
  lemma RequestTraced(c: Config, env: Env, w: World)
    ensures var (w', result) := Perform(c, env, w, 0);
            Traced(c, env, |w.log|, w'.log) && Ends(c, env, |w.log|, w'.log, result)
  {
    var base := |w.log|;
    var open := (v, a) => Open(c, env, base, v, a);
    var over := (v, r) => Over(c, env, base, v, r);
    forall v, a | open(v, a)
      ensures Leads(c, env, v, a, open, over)
    {
      var (v', result) := Attempt(c, env, v, a);
      AttemptTraced(c, env, base, v, a, v', result);
    }
    LoopInduction(c, env, w, 0, open, over);
  }

  lemma {:induction false} TracedAt(c: Config, env: Env, base: nat, log: seq<Event>, i: nat)
    requires Traced(c, env, base, log) && base <= i < |log|
    ensures Fitting(c, env, base, log[..i], log[i])
    decreases |log|
  {
    var k := |log| - 1;
    if i < k {
      TracedAt(c, env, base, log[..k], i);
      assert log[..k][..i] == log[..i];
    }
  }

  /** A retry follows the reply that calls for it, with the delay that the decider gives for that reply. */
  lemma RetriesWarranted(c: Config, env: Env, base: nat, log: seq<Event>, i: nat)
    requires Traced(c, env, base, log) && base <= i < |log| && log[i].Retrying?
    ensures var j := if c.budget.Some? then i - 3 else i - 2;
            && j >= base && log[j].Sent?
            && Decide(c, log[j].reply, log[i].attempt - 1, env.draws(j + 2)) == Some(log[i].delay)
  {
    TracedAt(c, env, base, log, i);
    if c.budget.Some? {
      TracedAt(c, env, base, log, i - 1);
      assert log[..i][..i - 1] == log[..i - 1];
      assert Tries(log[..i], base) == Tries(log[..i - 1], base);
    }
  }

  /** Whether the decider in force would ever have this reply retried. */
  predicate Repeatable(c: Config, r: Reply) {
    if c.policy.Default? then Retryable(r) else c.policy.condition(r)
  }

  lemma Repeats(c: Config, r: Reply, attempt: int, draw: real)
    ensures Decide(c, r, attempt, draw).Some? <==> attempt < c.policy.maxRetries && Repeatable(c, r)
  {
    if c.policy.Default? { RetriesRetryable(c, r, attempt, draw); }
  }

  /** A send is recorded in the next event, and what comes then has to do with its reply. */
  lemma AfterSend(c: Config, env: Env, base: nat, log: seq<Event>, result: Result, i: nat)
    requires Traced(c, env, base, log) && Ends(c, env, base, log, result)
    requires base <= i < |log| && log[i].Sent?
    ensures i + 2 <= |log| && Replied(log[..i + 2], base) && log[..i + 2][i] == log[i]
    ensures Tries(log[..i + 2], base) == Tries(log[..i], base)
    ensures i + 2 < |log| ==> Fitting(c, env, base, log[..i + 2], log[i + 2])
  {
    TracedAt(c, env, base, log, i);
    if i + 1 < |log| {
      TracedAt(c, env, base, log, i + 1);
      assert log[..i + 1][i] == log[i];
      assert log[..i + 2][..i + 1] == log[..i + 1] && log[..i + 1][..i] == log[..i];
    }
    if i + 2 < |log| { TracedAt(c, env, base, log, i + 2); }
  }

  /**
   A reply that is not to be retried ends the request: nothing but its record follows. Under the default policy that is
   one that is not Retryable, and otherwise one that the retry condition does not hold of.
   */
  lemma LastReply(c: Config, env: Env, base: nat, log: seq<Event>, result: Result, i: nat)
    requires Traced(c, env, base, log) && Ends(c, env, base, log, result)
    requires base <= i < |log| && log[i].Sent? && !Repeatable(c, log[i].reply)
    ensures i + 2 == |log| && result == ResultOf(log[i].reply)
  {
    AfterSend(c, env, base, log, result, i);
    Repeats(c, log[i].reply, Tries(log[..i], base), env.draws(i + 2));
  }

  /** A reply that is to be retried is, while attempts remain, unless there is a budget and it refuses. */
  lemma RetriesHappen(c: Config, env: Env, base: nat, log: seq<Event>, result: Result, i: nat)
    requires Traced(c, env, base, log) && Ends(c, env, base, log, result)
    requires base <= i < |log| && log[i].Sent? && Repeatable(c, log[i].reply)
    requires Tries(log[..i], base) < c.policy.maxRetries
    ensures i + 2 < |log|
    ensures c.budget.None? ==> log[i + 2].Retrying?
    ensures c.budget.Some? ==>
              log[i + 2].Budgeted? && (log[i + 2].granted ==> i + 3 < |log| && log[i + 3].Retrying?)
  {
    AfterSend(c, env, base, log, result, i);
    Repeats(c, log[i].reply, Tries(log[..i], base), env.draws(i + 2));
    assert log[..|log|] == log;
    if i + 3 < |log| {
      TracedAt(c, env, base, log, i + 3);
      assert log[..i + 3][i + 2] == log[i + 2];
    }
  }
}
