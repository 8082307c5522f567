/**
 Client.doWithRetry, retry_policy.go's DefaultRetryPolicy and the default retry condition: the loop that charges the
 rate limiter, the circuit breaker and the retry budget, driven by arbitrary replies, clock readings and random draws.
 */
module RetryLoop {
  import opened Base
  import R = RateLimiter
  import B = CircuitBreaker
  import G = RetryBudget
  import Backoff

  /** A response, with the verb of its request and the delay its Retry-After header asks for, 0 when there is none. */
  datatype Response = Response(status: int, verb: string, retryAfter: int)

  /** What the transport and the middleware around it hand back: an error, perhaps with a response, or a response. */
  datatype Reply = Got(response: Response) | Broken(err: string, partial: Option<Response>)

  function ResponseOf(r: Reply): Option<Response> {
    if r.Got? then Some(r.response) else r.partial
  }

  /** What the loop records as a failure, and also what DefaultRetryCondition retries. */
  predicate Failed(r: Reply) {
    r.Broken? || r.response.status >= 500
  }

  // ---------- the two deciders ----------

  datatype Policy =
    | Legacy(maxRetries: int, condition: Reply -> bool)
    | Default(maxRetries: int)

  /** DefaultIsIdempotent. */
  predicate IsIdempotent(name: string) {
    name == "GET" || name == "HEAD" || name == "PUT" || name == "DELETE" || name == "OPTIONS"
  }

  datatype Config = Config(
    limiter: Option<R.Config>,
    breaker: B.Config,
    budget: Option<G.Config>,
    policy: Policy,
    strategy: Backoff.BackoffStrategy,
    settings: Backoff.Settings)

  /** The delay before the next attempt, if there is to be one. */
  function Decide(c: Config, r: Reply, attempt: int, draw: real): Option<int> {
    var p := c.policy;
    var backoff := Backoff.Delay(c.strategy, attempt, c.settings, draw);
    if attempt >= p.maxRetries then None
    else if p.Legacy? then if p.condition(r) then Some(backoff) else None
    else
      var response := ResponseOf(r);
      if response.Some? && !IsIdempotent(response.value.verb) then None
      else if r.Broken? then Some(backoff)
      else if r.response.status == 429 || r.response.status >= 500 then
        Some(if r.response.retryAfter == 0 then backoff else r.response.retryAfter)
      else None
  }

  // ---------- the loop as a function ----------

  datatype Event =
    | Limited(now: int, granted: bool)        // the limiter was asked
    | Asked(now: int, granted: bool)          // the breaker was asked
    | Sent(reply: Reply)
    | RecordedFailure(now: int)
    | RecordedSuccess
    | Budgeted(now: int, granted: bool)       // the retry budget was asked
    | Retrying(attempt: int, delay: int)

  /** What the outside world answers when the log of events has a given length. */
  datatype Env = Env(replies: nat -> Reply, clock: nat -> int, draws: nat -> real)

  /** The state of the components; a limiter or budget that is not configured is never looked at. */
  datatype World = World(limiter: R.Bucket, breaker: B.Breaker, budget: G.Budget, log: seq<Event>)

  datatype Result = RateLimited | CircuitOpen | BudgetExceeded | Network(err: string) | Answered(response: Response)

  function AskLimiter(c: Config, env: Env, w: World): (World, bool) {
    if c.limiter.None? then (w, true)
    else
      var now := env.clock(|w.log|);
      var (b, granted) := R.AllowStep(c.limiter.value, w.limiter, now);
      (w.(limiter := b, log := w.log + [Limited(now, granted)]), granted)
  }

  function AskBreaker(c: Config, env: Env, w: World): (World, bool) {
    var now := env.clock(|w.log|);
    var (b, granted) := B.Step(c.breaker, w.breaker, B.Allow(now));
    (w.(breaker := b, log := w.log + [Asked(now, granted)]), granted)
  }

  function Transmit(env: Env, w: World): (World, Reply) {
    var reply := env.replies(|w.log|);
    (w.(log := w.log + [Sent(reply)]), reply)
  }

  /** Telling the breaker how it went. */
  function Record(c: Config, env: Env, w: World, reply: Reply): World {
    var now := env.clock(|w.log|);
    if Failed(reply) then
      w.(breaker := B.Step(c.breaker, w.breaker, B.Failure(now)).0, log := w.log + [RecordedFailure(now)])
    else
      w.(breaker := B.Step(c.breaker, w.breaker, B.Success).0, log := w.log + [RecordedSuccess])
  }

  function AskBudget(c: Config, env: Env, w: World): (World, bool) {
    if c.budget.None? then (w, true)
    else
      var now := env.clock(|w.log|);
      var (b, granted) := G.AllowStep(c.budget.value, w.budget, now);
      (w.(budget := b, log := w.log + [Budgeted(now, granted)]), granted)
  }

  function Schedule(w: World, attempt: int, delay: int): World {
    w.(log := w.log + [Retrying(attempt, delay)])
  }

  function ResultOf(r: Reply): Result {
    if r.Broken? then Network(r.err) else Answered(r.response)
  }

  /** What follows a reply once it is recorded: None when another attempt is due. */
  function Judge(c: Config, env: Env, w: World, reply: Reply, attempt: int): (World, Option<Result>) {
    var delay := Decide(c, reply, attempt, env.draws(|w.log|));
    if delay.None? then (w, Some(ResultOf(reply)))
    else
      var (w', affordable) := AskBudget(c, env, w);
      if !affordable then (w', Some(BudgetExceeded))
      else (Schedule(w', attempt + 1, delay.value), None)
  }

  /** What follows the limiter's leave. */
  function Proceed(c: Config, env: Env, w: World, attempt: int): (World, Option<Result>) {
    var (w1, closed) := AskBreaker(c, env, w);
    if !closed then (w1, Some(CircuitOpen))
    else
      var (w2, reply) := Transmit(env, w1);
      Judge(c, env, Record(c, env, w2, reply), reply, attempt)
  }

  /** One attempt: None when another one is due. */
  function Attempt(c: Config, env: Env, w: World, attempt: int): (World, Option<Result>) {
    var (w', admitted) := AskLimiter(c, env, w);
    if !admitted then (w', Some(RateLimited)) else Proceed(c, env, w', attempt)
  }

  function Perform(c: Config, env: Env, w: World, attempt: int): (World, Result)
    decreases Max(0, c.policy.maxRetries - attempt)
  {
    var (w', result) := Attempt(c, env, w, attempt);
    if result.Some? then (w', result.value)
    else
      AnotherIsDue(c, env, w, attempt);
      Perform(c, env, w', attempt + 1)
  }

  /** An attempt that asks for another is not the last one allowed. */
  lemma AnotherIsDue(c: Config, env: Env, w: World, attempt: int)
    ensures Attempt(c, env, w, attempt).1.None? ==> attempt < c.policy.maxRetries
  {
  }

  /** The loop in terms of its first attempt. */
  lemma Attempted(c: Config, env: Env, w: World, attempt: int) returns (w': World, result: Option<Result>)
    ensures (w', result) == Attempt(c, env, w, attempt)
    ensures result.Some? ==> Perform(c, env, w, attempt) == (w', result.value)
    ensures result.None? ==>
              attempt < c.policy.maxRetries && Perform(c, env, w, attempt) == Perform(c, env, w', attempt + 1)
  {
    w', result := Attempt(c, env, w, attempt).0, Attempt(c, env, w, attempt).1;
    AnotherIsDue(c, env, w, attempt);
  }

  /** What an attempt leads to: more of the same, or the end. */
  ghost predicate Leads(c: Config, env: Env, w: World, attempt: int, open: (World, int) -> bool,
      over: (World, Result) -> bool)
  {
    var (w', result) := Attempt(c, env, w, attempt);
    if result.Some? then over(w', result.value) else open(w', attempt + 1)
  }

  /** An induction principle: what every attempt keeps open until it is over is over when the loop ends. */
  lemma {:induction false} LoopInduction(c: Config, env: Env, w: World, attempt: int, open: (World, int) -> bool,
      over: (World, Result) -> bool)
    requires open(w, attempt) && forall v, a :: open(v, a) ==> Leads(c, env, v, a, open, over)
    ensures over(Perform(c, env, w, attempt).0, Perform(c, env, w, attempt).1)
    decreases Max(0, c.policy.maxRetries - attempt)
  {
    var w', result := Attempted(c, env, w, attempt);
    assert Leads(c, env, w, attempt, open, over);
    if result.None? { LoopInduction(c, env, w', attempt + 1, open, over); }
  }

  // ---------- the code ----------

  class DefaultRetryPolicy {
    const maxRetries: int
    const isIdempotent: string -> bool
    const calculator: Backoff.PolicyBackoff

    constructor (maxRetries: int, calculator: Backoff.PolicyBackoff)
      ensures this.maxRetries == maxRetries && this.isIdempotent == IsIdempotent && this.calculator == calculator
    {
      this.maxRetries, isIdempotent, this.calculator := maxRetries, IsIdempotent, calculator;
    }

    ghost predicate Follows(c: Config) {
      && c.policy == Default(maxRetries) && isIdempotent == IsIdempotent
      && calculator.settings == c.settings && calculator.Effective() == c.strategy
    }

    method ShouldRetry(r: Reply, attempt: int, draw: real, ghost c: Config) returns (delay: int, retry: bool)
      requires Follows(c)
      ensures (if retry then Some(delay) else None) == Decide(c, r, attempt, draw)
      ensures !retry ==> delay == 0
    {
      if attempt >= maxRetries {
        return 0, false;
      }
      var response := ResponseOf(r);
      if response.Some? && !isIdempotent(response.value.verb) {
        return 0, false;
      }
      retry, delay := false, 0;
      if r.Broken? {
        retry := true;
      } else if r.response.status == 429 || r.response.status >= 500 {
        retry := true;
        delay := r.response.retryAfter;
      }
      if !retry {
        return 0, false;
      }
      if delay == 0 {
        delay := calculator.CalculateBackoff(attempt, draw);
      }
    }
  }

  class Client {
    const config: Config
    const rateLimiter: R.RateLimiter?
    const circuitBreaker: B.CircuitBreaker
    const retryBudget: G.RetryBudget?
    const retryPolicy: DefaultRetryPolicy?
    const calculator: Backoff.ClientBackoff
    var log: seq<Event>

    /** The components are the ones the configuration asks for. */
    ghost predicate Configured() {
      && (if config.limiter.Some? then rateLimiter != null && rateLimiter.config == config.limiter.value
          else rateLimiter == null)
      && circuitBreaker.config == config.breaker
      && (if config.budget.Some? then retryBudget != null && retryBudget.Settings() == config.budget.value
          else retryBudget == null)
      && (if config.policy.Default? then retryPolicy != null && retryPolicy.Follows(config) else retryPolicy == null)
      && calculator.settings == config.settings && calculator.Effective() == config.strategy
    }

    ghost predicate Represents(w: World)
      reads this, rateLimiter, circuitBreaker, retryBudget
    {
      && Configured()
      && (rateLimiter != null ==> rateLimiter.State() == w.limiter)
      && circuitBreaker.Value() == w.breaker
      && (retryBudget != null ==> retryBudget.Value() == w.budget)
      && log == w.log
    }

    constructor (config: Config, rateLimiter: R.RateLimiter?, circuitBreaker: B.CircuitBreaker,
                 retryBudget: G.RetryBudget?, retryPolicy: DefaultRetryPolicy?, calculator: Backoff.ClientBackoff)
      ensures this.config == config && this.rateLimiter == rateLimiter && this.circuitBreaker == circuitBreaker
      ensures this.retryBudget == retryBudget && this.retryPolicy == retryPolicy && this.calculator == calculator
      ensures log == []
    {
      this.config, this.rateLimiter, this.circuitBreaker := config, rateLimiter, circuitBreaker;
      this.retryBudget, this.retryPolicy, this.calculator := retryBudget, retryPolicy, calculator;
      log := [];
    }

    method CheckLimiter(env: Env, ghost w: World) returns (allowed: bool)
      requires Represents(w)
      modifies this, rateLimiter
      ensures Represents(AskLimiter(config, env, w).0) && allowed == AskLimiter(config, env, w).1
    {
      if rateLimiter == null {
        return true;
      }
      var now := env.clock(|log|);
      allowed := rateLimiter.Allow(now);
      log := log + [Limited(now, allowed)];
    }

    method CheckBreaker(env: Env, ghost w: World) returns (allowed: bool)
      requires Represents(w)
      modifies this, circuitBreaker
      ensures Represents(AskBreaker(config, env, w).0) && allowed == AskBreaker(config, env, w).1
    {
      var now := env.clock(|log|);
      allowed := circuitBreaker.Allow(now);
      log := log + [Asked(now, allowed)];
    }

    method Execute(env: Env, ghost w: World) returns (reply: Reply)
      requires Represents(w)
      modifies this, circuitBreaker
      ensures reply == Transmit(env, w).1
      ensures Represents(Record(config, env, Transmit(env, w).0, reply))
    {
      reply := env.replies(|log|);
      log := log + [Sent(reply)];
      if Failed(reply) {
        var now := env.clock(|log|);
        circuitBreaker.RecordFailure(now);
        log := log + [RecordedFailure(now)];
      } else {
        circuitBreaker.RecordSuccess();
        log := log + [RecordedSuccess];
      }
    }

    method CheckRetry(r: Reply, attempt: int, draw: real) returns (delay: int, retry: bool)
      requires Configured()
      ensures (if retry then Some(delay) else None) == Decide(config, r, attempt, draw)
    {
      delay := 0;
      if retryPolicy != null {
        delay, retry := retryPolicy.ShouldRetry(r, attempt, draw, config);
      } else {
        retry := attempt < config.policy.maxRetries && config.policy.condition(r);
        if retry {
          delay := calculator.CalculateBackoff(attempt, draw);
        }
      }
    }

    method CheckBudget(env: Env, ghost w: World) returns (allowed: bool)
      requires Represents(w)
      modifies this, retryBudget
      ensures Represents(AskBudget(config, env, w).0) && allowed == AskBudget(config, env, w).1
    {
      if retryBudget == null {
        return true;
      }
      var now := env.clock(|log|);
      allowed := retryBudget.Allow(now);
      log := log + [Budgeted(now, allowed)];
    }

    /** The body of doWithRetry up to its recursive call, which is due when there is no result. */
    method AttemptOnce(env: Env, attempt: int, ghost w: World) returns (result: Option<Result>)
      requires Represents(w)
      modifies this, rateLimiter, circuitBreaker, retryBudget
      ensures Represents(Attempt(config, env, w, attempt).0) && result == Attempt(config, env, w, attempt).1
    {
      var allowed := CheckLimiter(env, w);
      ghost var w1 := AskLimiter(config, env, w).0;
      if !allowed {
        return Some(RateLimited);
      }
      allowed := CheckBreaker(env, w1);
      ghost var w2 := AskBreaker(config, env, w1).0;
      if !allowed {
        return Some(CircuitOpen);
      }
      var reply := Execute(env, w2);
      ghost var w4 := Record(config, env, Transmit(env, w2).0, reply);
      var delay, retry := CheckRetry(reply, attempt, env.draws(|log|));
      if !retry {
        return Some(ResultOf(reply));
      }
      allowed := CheckBudget(env, w4);
      if !allowed {
        return Some(BudgetExceeded);
      }
      log := log + [Retrying(attempt + 1, delay)];
      return None;
    }

    method DoWithRetry(env: Env, attempt: int, ghost w: World) returns (result: Result)
      requires Represents(w)
      modifies this, rateLimiter, circuitBreaker, retryBudget
      ensures Represents(Perform(config, env, w, attempt).0) && result == Perform(config, env, w, attempt).1
      decreases Max(0, config.policy.maxRetries - attempt)
    {
      ghost var next, end := Attempted(config, env, w, attempt);
      var r := AttemptOnce(env, attempt, w);
      if r.Some? {
        return r.value;
      }
      result := DoWithRetry(env, attempt + 1, next);
    }
  }

  // ---------- what the log says ----------

  datatype Kind = Admission | Rejection | Sending | Funding | Retry

  predicate Is(e: Event, k: Kind) {
    match k
    case Admission => e.Limited? && e.granted
    case Rejection => e.Asked? && !e.granted
    case Sending => e.Sent?
    case Funding => e.Budgeted? && e.granted
    case Retry => e.Retrying?
  }

  function Count(log: seq<Event>, k: Kind): nat {
    if log == [] then 0
    else Count(log[..|log| - 1], k) + if Is(log[|log| - 1], k) then 1 else 0
  }

  /** When the limiter was asked. */
  function LimiterTimes(log: seq<Event>): seq<int> {
    if log == [] then []
    else
      var rest, e := LimiterTimes(log[..|log| - 1]), log[|log| - 1];
      if e.Limited? then rest + [e.now] else rest
  }

  function BudgetTimes(log: seq<Event>): seq<int> {
    if log == [] then []
    else
      var rest, e := BudgetTimes(log[..|log| - 1]), log[|log| - 1];
      if e.Budgeted? then rest + [e.now] else rest
  }

  function BreakerEvent(e: Event): Option<B.Event> {
    match e
    case Asked(now, _) => Some(B.Allow(now))
    case RecordedFailure(now) => Some(B.Failure(now))
    case RecordedSuccess => Some(B.Success)
    case _ => None
  }

  /** What the breaker was asked and told. */
  function BreakerEvents(log: seq<Event>): seq<B.Event> {
    if log == [] then []
    else
      var rest, e := BreakerEvents(log[..|log| - 1]), BreakerEvent(log[|log| - 1]);
      if e.Some? then rest + [e.value] else rest
  }

  lemma Logged(log: seq<Event>, e: Event)
    ensures LimiterTimes(log + [e]) == if e.Limited? then LimiterTimes(log) + [e.now] else LimiterTimes(log)
    ensures BudgetTimes(log + [e]) == if e.Budgeted? then BudgetTimes(log) + [e.now] else BudgetTimes(log)
    ensures BreakerEvents(log + [e])
            == if BreakerEvent(e).Some? then BreakerEvents(log) + [BreakerEvent(e).value] else BreakerEvents(log)
  {
  }

  lemma Counted(log: seq<Event>, e: Event, k: Kind)
    ensures Count(log + [e], k) == Count(log, k) + if Is(e, k) then 1 else 0
  {
  }

  ghost predicate LimiterAt(c: Config, created: int, limiter: R.Bucket, log: seq<Event>) {
    c.limiter.Some? ==> limiter == R.Run(c.limiter.value, created, LimiterTimes(log))
  }

  ghost predicate BreakerAt(c: Config, breaker: B.Breaker, log: seq<Event>) {
    breaker == B.Run(c.breaker, BreakerEvents(log))
  }

  ghost predicate BudgetAt(c: Config, created: int, budget: G.Budget, log: seq<Event>) {
    c.budget.Some? ==> budget == G.Run(c.budget.value, created, BudgetTimes(log))
  }

  /** Every component stands where its own run over its part of the log would leave it. */
  ghost predicate Projected(c: Config, created: int, w: World) {
    LimiterAt(c, created, w.limiter, w.log) && BreakerAt(c, w.breaker, w.log) && BudgetAt(c, created, w.budget, w.log)
  }

  /** One event: the component it concerns gave the answer it holds, at the reading of the clock it holds. */
  ghost predicate Moves(c: Config, env: Env, w: World, e: Event, w': World) {
    && w'.log == w.log + [e]
    && (if e.Limited? then
          && c.limiter.Some? && e.now == env.clock(|w.log|)
          && (w'.limiter, e.granted) == R.AllowStep(c.limiter.value, w.limiter, e.now)
        else w'.limiter == w.limiter)
    && (if BreakerEvent(e).Some? then w'.breaker == B.Step(c.breaker, w.breaker, BreakerEvent(e).value).0
        else w'.breaker == w.breaker)
    && (e.Asked? ==> e.granted == B.Step(c.breaker, w.breaker, B.Allow(e.now)).1)
    && (if e.Budgeted? then
          && c.budget.Some? && e.now == env.clock(|w.log|)
          && (w'.budget, e.granted) == G.AllowStep(c.budget.value, w.budget, e.now)
        else w'.budget == w.budget)
  }

  /** What the components answered is what their own runs, over their parts of the log before, make them answer. */
  ghost predicate Truthful(c: Config, created: int, before: seq<Event>, e: Event) {
    match e
    case Limited(now, granted) =>
      c.limiter.Some? ==>
        granted == R.AllowStep(c.limiter.value, R.Run(c.limiter.value, created, LimiterTimes(before)), now).1
    case Asked(now, granted) => granted == B.Step(c.breaker, B.Run(c.breaker, BreakerEvents(before)), B.Allow(now)).1
    case Budgeted(now, granted) =>
      c.budget.Some? ==>
        granted == G.AllowStep(c.budget.value, G.Run(c.budget.value, created, BudgetTimes(before)), now).1
    case _ => true
  }

  ghost predicate AllTruthful(c: Config, created: int, log: seq<Event>) {
    forall i: nat {:trigger log[i]} :: i < |log| ==> Truthful(c, created, log[..i], log[i])
  }

  lemma TruthMore(c: Config, created: int, log: seq<Event>, e: Event)
    requires AllTruthful(c, created, log) && Truthful(c, created, log, e)
    ensures AllTruthful(c, created, log + [e])
  {
    forall i: nat {:trigger (log + [e])[i]} | i < |log + [e]|
      ensures Truthful(c, created, (log + [e])[..i], (log + [e])[i])
    {
      assert (log + [e])[..i] == log[..i];
    }
  }

  lemma TruthMoves(c: Config, env: Env, created: int, w: World, e: Event, w': World)
    requires Projected(c, created, w) && Moves(c, env, w, e, w')
    ensures Truthful(c, created, w.log, e)
  {
  }

  lemma LimiterStays(c: Config, env: Env, created: int, w: World, e: Event, w': World)
    requires LimiterAt(c, created, w.limiter, w.log) && Moves(c, env, w, e, w')
    ensures LimiterAt(c, created, w'.limiter, w'.log)
  {
  }

  lemma BreakerStays(c: Config, env: Env, w: World, e: Event, w': World)
    requires BreakerAt(c, w.breaker, w.log) && Moves(c, env, w, e, w')
    ensures BreakerAt(c, w'.breaker, w'.log)
  {
  }

  lemma BudgetStays(c: Config, env: Env, created: int, w: World, e: Event, w': World)
    requires BudgetAt(c, created, w.budget, w.log) && Moves(c, env, w, e, w')
    ensures BudgetAt(c, created, w'.budget, w'.log)
  {
  }

  function Owed(e: Event): int {
    if Is(e, Admission) then 1 else if Is(e, Sending) || Is(e, Rejection) then -1 else 0
  }

  function Funded(e: Event): int {
    if Is(e, Funding) then 1 else if Is(e, Retry) then -1 else 0
  }

  /** The limiter's grants less sends and breaker rejections, and the budget's grants less retries scheduled. */
  ghost predicate Balanced(c: Config, log: seq<Event>, owed: int, funded: int) {
    && (c.limiter.Some? ==> Count(log, Admission) == Count(log, Sending) + Count(log, Rejection) + owed)
    && (c.budget.Some? ==> Count(log, Funding) == Count(log, Retry) + funded)
  }

  lemma BalanceMoves(c: Config, log: seq<Event>, e: Event, owed: int, funded: int)
    requires Balanced(c, log, owed, funded)
    ensures Balanced(c, log + [e], owed + Owed(e), funded + Funded(e))
  {
  }

  /** The clock never goes back, and the client was created before it was used. */
  ghost predicate Monotone(env: Env, created: int) {
    created <= env.clock(0) && forall i: nat, j: nat :: i <= j ==> env.clock(i) <= env.clock(j)
  }

  /** The grants in the log are the ones the limiter's own run gives, at times in order and not in the future. */
  ghost predicate LimiterMetered(c: R.Config, env: Env, created: int, log: seq<Event>) {
    var times := LimiterTimes(log);
    && R.Clock(created, times)
    && R.Last(created, times) <= env.clock(|log|)
    && Count(log, Admission) == R.Grants(c, created, times, created)
  }

  ghost predicate NoneAfter(times: seq<int>, t: int) {
    forall i :: 0 <= i < |times| ==> times[i] <= t
  }

  ghost predicate BudgetMetered(c: G.Config, env: Env, created: int, log: seq<Event>) {
    NoneAfter(BudgetTimes(log), env.clock(|log|)) && Count(log, Funding) == G.Grants(c, created, BudgetTimes(log), 0)
  }

  lemma LimiterGrantsMore(c: R.Config, created: int, times: seq<int>, now: int)
    requires R.Clock(created, times) && R.Last(created, times) <= now
    ensures R.Clock(created, times + [now]) && R.Last(created, times + [now]) == now
    ensures R.Grants(c, created, times + [now], created)
            == R.Grants(c, created, times, created) + if R.AllowStep(c, R.Run(c, created, times), now).1 then 1 else 0
  {
    assert (times + [now])[..|times|] == times;
    var all := [created] + times;
    assert all[|all| - 1] == R.Last(created, times);
    assert [created] + (times + [now]) == all + [now];
    assert all[0] == created;
  }

  lemma LimiterMeters(c: Config, env: Env, created: int, w: World, e: Event, w': World)
    requires c.limiter.Some? && Monotone(env, created) && LimiterAt(c, created, w.limiter, w.log)
    requires LimiterMetered(c.limiter.value, env, created, w.log) && Moves(c, env, w, e, w')
    ensures LimiterMetered(c.limiter.value, env, created, w'.log)
  {
    Logged(w.log, e);
    Counted(w.log, e, Admission);
    assert env.clock(|w.log|) <= env.clock(|w'.log|);
    if e.Limited? { LimiterGrantsMore(c.limiter.value, created, LimiterTimes(w.log), e.now); }
  }

  lemma NoneAfterMore(times: seq<int>, now: int, later: int)
    requires NoneAfter(times, now) && now <= later
    ensures NoneAfter(times, later) && NoneAfter(times + [now], later)
  {
  }

  lemma BudgetGrantsMore(c: G.Config, created: int, times: seq<int>, now: int)
    ensures G.Grants(c, created, times + [now], 0)
            == G.Grants(c, created, times, 0) + if G.AllowStep(c, G.Run(c, created, times), now).1 then 1 else 0
  {
    assert (times + [now])[..|times|] == times;
  }

  lemma BudgetMeters(c: Config, env: Env, created: int, w: World, e: Event, w': World)
    requires c.budget.Some? && Monotone(env, created) && BudgetAt(c, created, w.budget, w.log)
    requires BudgetMetered(c.budget.value, env, created, w.log) && Moves(c, env, w, e, w')
    ensures BudgetMetered(c.budget.value, env, created, w'.log)
  {
    Logged(w.log, e);
    Counted(w.log, e, Funding);
    NoneAfterMore(BudgetTimes(w.log), env.clock(|w.log|), env.clock(|w'.log|));
    if e.Budgeted? { BudgetGrantsMore(c.budget.value, created, BudgetTimes(w.log), e.now); }
  }

  ghost predicate Metered(c: Config, env: Env, created: int, log: seq<Event>) {
    && (c.limiter.Some? ==> LimiterMetered(c.limiter.value, env, created, log))
    && (c.budget.Some? ==> BudgetMetered(c.budget.value, env, created, log))
  }

  /** The limiter was asked at the clock reading that its place in the log stands for. */
  ghost predicate Stamped(env: Env, log: seq<Event>) {
    forall i: nat {:trigger log[i]} :: i < |log| && log[i].Limited? ==> log[i].now == env.clock(i)
  }

  /** One while a request let through by the limiter is neither sent nor rejected, and otherwise none. */
  function InFlight(log: seq<Event>): int {
    if log == [] then 0
    else
      var e := log[|log| - 1];
      if (e.Limited? || e.Asked?) && e.granted then 1 else 0
  }

  /** The limiter's grants are in accord with its own run, and went into sends, rejections and what is in flight. */
  ghost predicate PrefixSound(c: R.Config, env: Env, created: int, log: seq<Event>) {
    && Count(log, Admission) == Count(log, Sending) + Count(log, Rejection) + InFlight(log)
    && (Monotone(env, created) ==> LimiterMetered(c, env, created, log))
  }

  /** So they were at every moment. */
  ghost predicate AlwaysSpent(c: Config, env: Env, created: int, log: seq<Event>) {
    c.limiter.Some? ==>
      forall k: nat {:trigger log[..k]} :: k <= |log| ==> PrefixSound(c.limiter.value, env, created, log[..k])
  }

  lemma SpentMore(c: Config, env: Env, created: int, log: seq<Event>, e: Event)
    requires AlwaysSpent(c, env, created, log)
    requires c.limiter.Some? ==> PrefixSound(c.limiter.value, env, created, log + [e])
    ensures AlwaysSpent(c, env, created, log + [e])
  {
    if c.limiter.Some? {
      var log' := log + [e];
      forall k: nat {:trigger log'[..k]} | k <= |log'|
        ensures PrefixSound(c.limiter.value, env, created, log'[..k])
      {
        assert log'[..k] == if k <= |log| then log[..k] else log';
      }
    }
  }

  ghost predicate Kept(c: Config, env: Env, created: int, w: World, owed: int, funded: int) {
    && Stamped(env, w.log) && AllTruthful(c, created, w.log)
    && Projected(c, created, w) && Balanced(c, w.log, owed, funded)
    && (Monotone(env, created) ==> Metered(c, env, created, w.log))
    && AlwaysSpent(c, env, created, w.log)
  }

  lemma KeptMoves(c: Config, env: Env, created: int, w: World, e: Event, w': World,
                  owed: int, funded: int, owed': int, funded': int)
    requires Kept(c, env, created, w, owed, funded) && Moves(c, env, w, e, w')
    requires owed' == owed + Owed(e) && funded' == funded + Funded(e)
    requires c.limiter.Some? ==> owed' == InFlight(w'.log)
    ensures Kept(c, env, created, w', owed', funded')
  {
    TruthMoves(c, env, created, w, e, w');
    TruthMore(c, created, w.log, e);
    LimiterStays(c, env, created, w, e, w');
    BreakerStays(c, env, w, e, w');
    BudgetStays(c, env, created, w, e, w');
    BalanceMoves(c, w.log, e, owed, funded);
    if Monotone(env, created) {
      if c.limiter.Some? { LimiterMeters(c, env, created, w, e, w'); }
      if c.budget.Some? { BudgetMeters(c, env, created, w, e, w'); }
    }
    SpentMore(c, env, created, w.log, e);
  }

  // ---------- the account over attempts, requests and runs ----------

  /** A grant is owed for until the request is sent or the breaker rejects it. */
  lemma LimiterKept(c: Config, env: Env, created: int, w: World)
    requires Kept(c, env, created, w, 0, 0)
    ensures var (w1, admitted) := AskLimiter(c, env, w); Kept(c, env, created, w1, if admitted then 1 else 0, 0)
  {
    var (w1, admitted) := AskLimiter(c, env, w);
    if c.limiter.Some? {
      KeptMoves(c, env, created, w, Limited(env.clock(|w.log|), admitted), w1, 0, 0, if admitted then 1 else 0, 0);
    }
  }

  lemma BreakerKept(c: Config, env: Env, created: int, w: World)
    requires Kept(c, env, created, w, 1, 0)
    ensures var (w1, granted) := AskBreaker(c, env, w); Kept(c, env, created, w1, if granted then 1 else 0, 0)
  {
    var (w1, granted) := AskBreaker(c, env, w);
    KeptMoves(c, env, created, w, Asked(env.clock(|w.log|), granted), w1, 1, 0, if granted then 1 else 0, 0);
  }

  lemma TransmitKept(c: Config, env: Env, created: int, w: World)
    requires Kept(c, env, created, w, 1, 0)
    ensures Kept(c, env, created, Transmit(env, w).0, 0, 0)
  {
    var (w1, reply) := Transmit(env, w);
    KeptMoves(c, env, created, w, Sent(reply), w1, 1, 0, 0, 0);
  }

  lemma RecordKept(c: Config, env: Env, created: int, w: World, reply: Reply)
    requires Kept(c, env, created, w, 0, 0)
    ensures Kept(c, env, created, Record(c, env, w, reply), 0, 0)
  {
    var e := if Failed(reply) then RecordedFailure(env.clock(|w.log|)) else RecordedSuccess;
    KeptMoves(c, env, created, w, e, Record(c, env, w, reply), 0, 0, 0, 0);
  }

  lemma BudgetKept(c: Config, env: Env, created: int, w: World)
    requires Kept(c, env, created, w, 0, 0)
    ensures var (w1, affordable) := AskBudget(c, env, w); Kept(c, env, created, w1, 0, if affordable then 1 else 0)
  {
    var (w1, affordable) := AskBudget(c, env, w);
    if c.budget.Some? {
      KeptMoves(c, env, created, w, Budgeted(env.clock(|w.log|), affordable), w1, 0, 0, 0, if affordable then 1 else 0);
    }
  }

  lemma ScheduleKept(c: Config, env: Env, created: int, w: World, attempt: int, delay: int)
    requires Kept(c, env, created, w, 0, 1)
    ensures Kept(c, env, created, Schedule(w, attempt, delay), 0, 0)
  {
    KeptMoves(c, env, created, w, Retrying(attempt, delay), Schedule(w, attempt, delay), 0, 1, 0, 0);
  }

  lemma JudgeKept(c: Config, env: Env, created: int, w: World, reply: Reply, attempt: int)
    requires Kept(c, env, created, w, 0, 0)
    ensures Kept(c, env, created, Judge(c, env, w, reply, attempt).0, 0, 0)
  {
    var delay := Decide(c, reply, attempt, env.draws(|w.log|));
    if delay.Some? {
      var (w', affordable) := AskBudget(c, env, w);
      BudgetKept(c, env, created, w);
      if affordable { ScheduleKept(c, env, created, w', attempt + 1, delay.value); }
    }
  }

  lemma AttemptKept(c: Config, env: Env, created: int, w: World, attempt: int)
    requires Kept(c, env, created, w, 0, 0)
    ensures Kept(c, env, created, Attempt(c, env, w, attempt).0, 0, 0)
  {
    var (w1, admitted) := AskLimiter(c, env, w);
    LimiterKept(c, env, created, w);
    if admitted {
      var (w2, closed) := AskBreaker(c, env, w1);
      BreakerKept(c, env, created, w1);
      if closed {
        var (w3, reply) := Transmit(env, w2);
        var w4 := Record(c, env, w3, reply);
        TransmitKept(c, env, created, w2);
        RecordKept(c, env, created, w3, reply);
        JudgeKept(c, env, created, w4, reply, attempt);
      }
    }
  }

  lemma {:induction false} RequestKept(c: Config, env: Env, created: int, w: World, attempt: int)
    requires Kept(c, env, created, w, 0, 0)
    ensures Kept(c, env, created, Perform(c, env, w, attempt).0, 0, 0)
    decreases Max(0, c.policy.maxRetries - attempt)
  {
    var w', result := Attempted(c, env, w, attempt);
    AttemptKept(c, env, created, w, attempt);
    if result.None? { RequestKept(c, env, created, w', attempt + 1); }
  }

  /** A new client. */
  function Start(c: Config, created: int): World {
    World(if c.limiter.Some? then R.Full(c.limiter.value, created) else R.Bucket(0, 0),
          B.NEW_BREAKER, G.Budget(0, created), [])
  }

  /** The world after n requests, one after the other. */
  function Requests(c: Config, env: Env, created: int, n: nat): World {
    if n == 0 then Start(c, created) else Perform(c, env, Requests(c, env, created, n - 1), 0).0
  }

  lemma StartKept(c: Config, env: Env, created: int)
    ensures Kept(c, env, created, Start(c, created), 0, 0)
  {
  }

  lemma {:induction false} RequestsKept(c: Config, env: Env, created: int, n: nat)
    ensures Kept(c, env, created, Requests(c, env, created, n), 0, 0)
  {
    if n == 0 {
      StartKept(c, env, created);
    } else {
      RequestsKept(c, env, created, n - 1);
      RequestKept(c, env, created, Requests(c, env, created, n - 1), 0);
    }
  }

  /**
   Over any sequence of requests, whatever the replies and the clock: limiter, breaker and budget each answer as their
   own run makes them answer and stand where it would leave them, limiter grants are the sends and the breaker's
   rejections together, and budget grants are the retries scheduled.
   */
  lemma Accounts(c: Config, env: Env, created: int, n: nat)
    ensures var w := Requests(c, env, created, n);
            && Projected(c, created, w) && AllTruthful(c, created, w.log)
            && Stamped(env, w.log) && AlwaysSpent(c, env, created, w.log)
            && (Monotone(env, created) ==> Metered(c, env, created, w.log))
            && (c.limiter.Some? ==> Count(w.log, Admission) == Count(w.log, Sending) + Count(w.log, Rejection))
            && (c.budget.Some? ==> Count(w.log, Funding) == Count(w.log, Retry))
  {
    RequestsKept(c, env, created, n);
  }

  lemma LimiterAccount(c: Config, env: Env, created: int, n: nat, w: seq<Event>)
    requires c.limiter.Some? && Monotone(env, created) && w == Requests(c, env, created, n).log
    ensures LimiterMetered(c.limiter.value, env, created, w) && Count(w, Sending) <= Count(w, Admission)
  {
    Accounts(c, env, created, n);
  }

  lemma BudgetAccount(c: Config, env: Env, created: int, n: nat, w: seq<Event>)
    requires c.budget.Some? && Monotone(env, created) && w == Requests(c, env, created, n).log
    ensures BudgetMetered(c.budget.value, env, created, w) && Count(w, Retry) == Count(w, Funding)
  {
    Accounts(c, env, created, n);
  }

  /** With a limiter, the requests sent by any time keep within the burst and the refill rate. */
  lemma SendsWithinRate(c: Config, env: Env, created: int, n: nat, w: seq<Event>)
    requires c.limiter.Some? && c.limiter.value.refillRate > 0 && Monotone(env, created)
    requires w == Requests(c, env, created, n).log
    ensures Count(w, Sending) <= Max(0, c.limiter.value.maxTokens) + R.Ticks(c.limiter.value, created, env.clock(|w|))
  {
    LimiterAccount(c, env, created, n, w);
    R.RunBound(c.limiter.value, created, LimiterTimes(w), env.clock(|w|));
  }

  /**
   What is logged after the first k events: more of everything, and limiter times no earlier than the clock was then.
   */
  lemma {:induction false} LogTail(env: Env, created: int, log: seq<Event>, k: nat) returns (more: seq<int>)
    requires Monotone(env, created) && Stamped(env, log) && k <= |log|
    ensures LimiterTimes(log) == LimiterTimes(log[..k]) + more
    ensures forall i :: 0 <= i < |more| ==> more[i] >= env.clock(k)
    ensures Count(log, Rejection) >= Count(log[..k], Rejection)
  {
    if k == |log| {
      more := [];
      assert log[..k] == log;
    } else {
      var last := |log| - 1;
      more := LogTail(env, created, log[..last], k);
      assert log[..last][..k] == log[..k];
      if log[last].Limited? {
        assert env.clock(k) <= env.clock(last);
        more := more + [log[last].now];
      }
    }
  }

  lemma LogWindow(c: R.Config, env: Env, created: int, log: seq<Event>, k: nat)
    requires Monotone(env, created) && k <= |log| && Stamped(env, log)
    requires PrefixSound(c, env, created, log) && PrefixSound(c, env, created, log[..k])
    ensures Count(log, Sending) - Count(log[..k], Sending)
            <= R.Grants(c, created, LimiterTimes(log), env.clock(k)) + InFlight(log[..k])
  {
    var more := LogTail(env, created, log, k);
    R.GrantsAfter(c, created, LimiterTimes(log[..k]), more, env.clock(k));
  }

  lemma StampedPrefix(env: Env, log: seq<Event>, k: nat)
    requires Stamped(env, log) && k <= |log|
    ensures Stamped(env, log[..k])
  {
  }

  lemma LogLimit(c: R.Config, env: Env, created: int, log: seq<Event>, k: nat)
    requires c.refillRate > 0 && Monotone(env, created) && k <= |log| && Stamped(env, log)
    requires PrefixSound(c, env, created, log) && PrefixSound(c, env, created, log[..k])
    ensures Count(log, Sending) - Count(log[..k], Sending)
            <= Max(0, c.maxTokens) + R.Ticks(c, env.clock(k), env.clock(|log|)) + 1 + InFlight(log[..k])
  {
    LogWindow(c, env, created, log, k);
    R.WindowBound(c, created, LimiterTimes(log), env.clock(k), env.clock(|log|));
  }

  lemma PrefixAccount(c: Config, env: Env, created: int, n: nat, w: seq<Event>, k: nat)
    requires c.limiter.Some? && w == Requests(c, env, created, n).log && k <= |w|
    ensures PrefixSound(c.limiter.value, env, created, w[..k]) && Stamped(env, w[..k])
  {
    Accounts(c, env, created, n);
    StampedPrefix(env, w, k);
  }

  /**
   Between any two moments of a run, given by the log before and up to them, the sends keep within the burst, the
   refill rate and one token; one more may go when the window opens on a request that the limiter has let through and
   that is not yet sent.
   */
  lemma SendsWithinWindow(c: Config, env: Env, created: int, n: nat, w: seq<Event>,
      before: seq<Event>, upto: seq<Event>)
    requires c.limiter.Some? && c.limiter.value.refillRate > 0 && Monotone(env, created)
    requires w == Requests(c, env, created, n).log && before <= upto <= w
    ensures Count(upto, Sending) - Count(before, Sending)
            <= Max(0, c.limiter.value.maxTokens)
               + R.Ticks(c.limiter.value, env.clock(|before|), env.clock(|upto|)) + 1 + InFlight(before)
  {
    assert w[..|upto|] == upto && w[..|before|] == before && upto[..|before|] == before;
    PrefixAccount(c, env, created, n, w, |upto|);
    PrefixAccount(c, env, created, n, w, |before|);
    LogLimit(c.limiter.value, env, created, upto, |before|);
  }

  lemma AttemptExtends(c: Config, env: Env, w: World, attempt: int)
    ensures w.log <= Attempt(c, env, w, attempt).0.log
  {
  }

  lemma {:induction false} PerformExtends(c: Config, env: Env, w: World, attempt: int)
    ensures w.log <= Perform(c, env, w, attempt).0.log
    decreases Max(0, c.policy.maxRetries - attempt)
  {
    var w', result := Attempted(c, env, w, attempt);
    AttemptExtends(c, env, w, attempt);
    if result.None? { PerformExtends(c, env, w', attempt + 1); }
  }

  lemma {:induction false} RequestsExtend(c: Config, env: Env, created: int, m: nat, n: nat)
    requires m <= n
    ensures Requests(c, env, created, m).log <= Requests(c, env, created, n).log
    decreases n
  {
    if m < n {
      RequestsExtend(c, env, created, m, n - 1);
      PerformExtends(c, env, Requests(c, env, created, n - 1), 0);
    }
  }

  /** A window that opens or closes between two requests is one of these, with nothing in flight. */
  lemma SendsBetweenRequests(c: Config, env: Env, created: int, m: nat, n: nat, v: seq<Event>, w: seq<Event>)
    requires c.limiter.Some? && c.limiter.value.refillRate > 0 && Monotone(env, created) && m <= n
    requires v == Requests(c, env, created, m).log && w == Requests(c, env, created, n).log
    ensures Count(w, Sending) - Count(v, Sending)
            <= Max(0, c.limiter.value.maxTokens) + R.Ticks(c.limiter.value, env.clock(|v|), env.clock(|w|)) + 1
  {
    RequestsExtend(c, env, created, m, n);
    NothingInFlight(c, env, created, m, v);
    SendsWithinWindow(c, env, created, n, w, v, w);
  }

  lemma NothingInFlight(c: Config, env: Env, created: int, m: nat, v: seq<Event>)
    requires c.limiter.Some? && v == Requests(c, env, created, m).log
    ensures InFlight(v) == 0
  {
    Accounts(c, env, created, m);
    assert v[..|v|] == v;
  }

  /** With a budget, the retries scheduled by any time keep within it. */
  lemma RetriesWithinBudget(c: Config, env: Env, created: int, n: nat, w: seq<Event>)
    requires c.budget.Some? && c.budget.value.maxRetries >= 0 && c.budget.value.perWindow > 0 && Monotone(env, created)
    requires w == Requests(c, env, created, n).log
    ensures Count(w, Retry) <= G.Allowance(c.budget.value, created, env.clock(|w|))
  {
    BudgetAccount(c, env, created, n, w);
    G.RunBound(c.budget.value, created, BudgetTimes(w), env.clock(|w|));
  }

  // ---------- how one request runs ----------

  lemma AsksSendNothing(c: Config, env: Env, w: World)
    ensures Count(AskLimiter(c, env, w).0.log, Sending) == Count(w.log, Sending)
    ensures Count(AskBreaker(c, env, w).0.log, Sending) == Count(w.log, Sending)
    ensures Count(AskBudget(c, env, w).0.log, Sending) == Count(w.log, Sending)
  {
    var now := env.clock(|w.log|);
    Counted(w.log, Limited(now, AskLimiter(c, env, w).1), Sending);
    Counted(w.log, Asked(now, AskBreaker(c, env, w).1), Sending);
    Counted(w.log, Budgeted(now, AskBudget(c, env, w).1), Sending);
  }

  lemma SendsOnce(c: Config, env: Env, w: World, reply: Reply, attempt: int, delay: int)
    ensures Count(Transmit(env, w).0.log, Sending) == Count(w.log, Sending) + 1
    ensures Count(Record(c, env, w, reply).log, Sending) == Count(w.log, Sending)
    ensures Count(Schedule(w, attempt, delay).log, Sending) == Count(w.log, Sending)
  {
  }

  lemma JudgeSendsNothing(c: Config, env: Env, w: World, reply: Reply, attempt: int)
    ensures Count(Judge(c, env, w, reply, attempt).0.log, Sending) == Count(w.log, Sending)
  {
    var delay := Decide(c, reply, attempt, env.draws(|w.log|));
    if delay.Some? {
      AsksSendNothing(c, env, w);
      SendsOnce(c, env, AskBudget(c, env, w).0, reply, attempt + 1, delay.value);
    }
  }

  /** Limiter and breaker both let the next attempt through. */
  predicate Passes(c: Config, env: Env, w: World) {
    AskLimiter(c, env, w).1 && AskBreaker(c, env, AskLimiter(c, env, w).0).1
  }

  /** An attempt sends the request once if it passes, and otherwise not. */
  lemma AttemptSends(c: Config, env: Env, w: World, attempt: int)
    ensures Count(Attempt(c, env, w, attempt).0.log, Sending)
            == Count(w.log, Sending) + if Passes(c, env, w) then 1 else 0
  {
    var (w1, admitted) := AskLimiter(c, env, w);
    AsksSendNothing(c, env, w);
    if admitted {
      var (w2, closed) := AskBreaker(c, env, w1);
      AsksSendNothing(c, env, w1);
      if closed {
        var (w3, reply) := Transmit(env, w2);
        var w4 := Record(c, env, w3, reply);
        SendsOnce(c, env, w2, reply, 0, 0);
        SendsOnce(c, env, w3, reply, 0, 0);
        JudgeSendsNothing(c, env, w4, reply, attempt);
      }
    }
  }

  /** A request is sent at most once more than maxRetries, a negative maxRetries counting as none, and the loop ends. */
  lemma {:induction false} SendsBounded(c: Config, env: Env, w: World, attempt: int)
    ensures Count(Perform(c, env, w, attempt).0.log, Sending)
            <= Count(w.log, Sending) + Max(0, c.policy.maxRetries - attempt) + 1
    decreases Max(0, c.policy.maxRetries - attempt)
  {
    var w', result := Attempted(c, env, w, attempt);
    AttemptSends(c, env, w, attempt);
    if result.None? { SendsBounded(c, env, w', attempt + 1); }
  }

  predicate Tells(e: Event, r: Reply) {
    if Failed(r) then e.RecordedFailure? else e.RecordedSuccess?
  }

  /** Each send is followed at once by the one record that fits its reply, and nothing else is recorded. */
  ghost predicate Paired(log: seq<Event>) {
    && (forall i :: 0 <= i < |log| && log[i].Sent? ==> i + 1 < |log| && Tells(log[i + 1], log[i].reply))
    && (forall i :: 0 <= i < |log| && (log[i].RecordedFailure? || log[i].RecordedSuccess?) ==>
          i > 0 && log[i - 1].Sent?)
  }

  lemma PairAdded(log: seq<Event>, r: Reply, e: Event)
    requires Paired(log) && Tells(e, r)
    ensures Paired(log + [Sent(r)] + [e])
  {
  }

  lemma AskAdded(log: seq<Event>, e: Event)
    requires Paired(log) && !e.Sent? && !e.RecordedFailure? && !e.RecordedSuccess?
    ensures Paired(log + [e])
  {
  }

  lemma JudgePaired(c: Config, env: Env, w: World, reply: Reply, attempt: int)
    requires Paired(w.log)
    ensures Paired(Judge(c, env, w, reply, attempt).0.log)
  {
    var (w', affordable) := AskBudget(c, env, w);
    AskAdded(w.log, Budgeted(env.clock(|w.log|), affordable));
    var delay := Decide(c, reply, attempt, env.draws(|w.log|));
    if delay.Some? { AskAdded(w'.log, Retrying(attempt + 1, delay.value)); }
  }

  lemma AttemptPaired(c: Config, env: Env, w: World, attempt: int)
    requires Paired(w.log)
    ensures Paired(Attempt(c, env, w, attempt).0.log)
  {
    var (w1, admitted) := AskLimiter(c, env, w);
    AskAdded(w.log, Limited(env.clock(|w.log|), admitted));
    if admitted {
      var (w2, closed) := AskBreaker(c, env, w1);
      AskAdded(w1.log, Asked(env.clock(|w1.log|), closed));
      if closed {
        var (w3, reply) := Transmit(env, w2);
        var w4 := Record(c, env, w3, reply);
        PairAdded(w2.log, reply, if Failed(reply) then RecordedFailure(env.clock(|w3.log|)) else RecordedSuccess);
        JudgePaired(c, env, w4, reply, attempt);
      }
    }
  }

  lemma {:induction false} RequestPaired(c: Config, env: Env, w: World, attempt: int)
    requires Paired(w.log)
    ensures Paired(Perform(c, env, w, attempt).0.log)
    decreases Max(0, c.policy.maxRetries - attempt)
  {
    var w', result := Attempted(c, env, w, attempt);
    AttemptPaired(c, env, w, attempt);
    if result.None? { RequestPaired(c, env, w', attempt + 1); }
  }

  /** What the last events must be for a request to end in result. */
  ghost predicate Explains(log: seq<Event>, result: Result) {
    && |log| >= 1
    && match result
       case RateLimited => log[|log| - 1].Limited? && !log[|log| - 1].granted
       case CircuitOpen => log[|log| - 1].Asked? && !log[|log| - 1].granted
       case BudgetExceeded => log[|log| - 1].Budgeted? && !log[|log| - 1].granted
       case Network(_) => |log| >= 2 && log[|log| - 2].Sent? && ResultOf(log[|log| - 2].reply) == result
       case Answered(_) => |log| >= 2 && log[|log| - 2].Sent? && ResultOf(log[|log| - 2].reply) == result
  }

  lemma AttemptExplained(c: Config, env: Env, w: World, attempt: int)
    ensures var (w', result) := Attempt(c, env, w, attempt);
            result.Some? ==> Explains(w'.log, result.value)
  {
  }

  /** A request ends with the refusal that stopped it or with the reply to its last send. */
  lemma {:induction false} ResultExplained(c: Config, env: Env, w: World, attempt: int)
    ensures var (w', result) := Perform(c, env, w, attempt); Explains(w'.log, result)
    decreases Max(0, c.policy.maxRetries - attempt)
  {
    var w', result := Attempted(c, env, w, attempt);
    AttemptExplained(c, env, w, attempt);
    if result.None? { ResultExplained(c, env, w', attempt + 1); }
  }

  // ---------- the default policy ----------

  /** What the policy retries: failures and status 429, unless a response says that its request was not idempotent. */
  predicate Retryable(r: Reply) {
    var response := ResponseOf(r);
    && (response.Some? ==> IsIdempotent(response.value.verb))
    && (r.Broken? || r.response.status == 429 || r.response.status >= 500)
  }

  /** The methods taken as idempotent are these five, with neither TRACE nor PATCH. */
  lemma IdempotentMethods(name: string)
    ensures IsIdempotent(name) <==> name in ["GET", "HEAD", "PUT", "DELETE", "OPTIONS"]
    ensures !IsIdempotent("TRACE") && !IsIdempotent("PATCH")
  {
  }

  lemma RetriesRetryable(c: Config, r: Reply, attempt: int, draw: real)
    requires c.policy.Default?
    ensures Decide(c, r, attempt, draw).Some? <==> attempt < c.policy.maxRetries && Retryable(r)
  {
  }

  /** The statuses on which Go's HTTP client repeats a request other than GET or HEAD as a GET. */
  predicate TurnsToGet(status: int) {
    status == 301 || status == 302 || status == 303
  }

  /** The method of the request after a redirect; 307 and 308 keep it. */
  function Redirected(verb: string, status: int): string {
    if TurnsToGet(status) && verb != "GET" && verb != "HEAD" then "GET" else verb
  }

  /** The method of the last request of a chain of redirects, which is the one that the response carries. */
  function FinalVerb(name: string, hops: seq<int>): string {
    if hops == [] then name else Redirected(FinalVerb(name, hops[..|hops| - 1]), hops[|hops| - 1])
  }

  /** A chain ends in an idempotent request exactly if it began with one or was turned into a GET. */
  lemma {:induction false} FinalVerbIdempotent(name: string, hops: seq<int>)
    ensures IsIdempotent(FinalVerb(name, hops))
            <==> IsIdempotent(name) || exists i :: 0 <= i < |hops| && TurnsToGet(hops[i])
  {
    if hops != [] {
      var k := |hops| - 1;
      FinalVerbIdempotent(name, hops[..k]);
      if i :| 0 <= i < |hops| && TurnsToGet(hops[i]) {
        if i < k { assert TurnsToGet(hops[..k][i]); }
      }
    }
  }

  /**
   The policy is documented as retrying only idempotent methods. A request whose method is not idempotent is retried,
   while attempts remain, exactly when it failed without any response, or a redirect turned it into a GET and that
   failed or got status 429.
   */
  lemma NonIdempotentRetried(c: Config, r: Reply, attempt: int, draw: real, name: string, hops: seq<int>)
    requires c.policy.Default? && !IsIdempotent(name)
    requires ResponseOf(r).Some? ==> ResponseOf(r).value.verb == FinalVerb(name, hops)
    ensures Decide(c, r, attempt, draw).Some?
            <==> attempt < c.policy.maxRetries
                 && (ResponseOf(r).None?
                     || ((exists i :: 0 <= i < |hops| && TurnsToGet(hops[i]))
                         && (r.Broken? || r.response.status == 429 || r.response.status >= 500)))
  {
    RetriesRetryable(c, r, attempt, draw);
    FinalVerbIdempotent(name, hops);
  }

  /** A POST is sent again after an error without a response, and after a 303 that led to a GET answered with 503. */
  lemma PostRetried(c: Config, draw: real, err: string)
    requires c.policy.Default? && c.policy.maxRetries >= 1
    ensures !IsIdempotent("POST") && FinalVerb("POST", [303]) == "GET"
    ensures Decide(c, Broken(err, None), 0, draw).Some?
    ensures Decide(c, Got(Response(503, FinalVerb("POST", [303]), 0)), 0, draw).Some?
  {
    assert FinalVerb("POST", [303]) == Redirected(FinalVerb("POST", []), 303);
    RetriesRetryable(c, Broken(err, None), 0, draw);
    RetriesRetryable(c, Got(Response(503, "GET", 0)), 0, draw);
  }

  /**
   For a reply whose own request is idempotent the policy retries exactly what the default retry condition does, and
   status 429 besides.
   */
  lemma PoliciesCompared(c: Config, legacy: Config, r: Reply, attempt: int, draw: real)
    requires c.policy.Default? && legacy.policy.Legacy? && legacy.policy.maxRetries == c.policy.maxRetries
    requires forall x :: legacy.policy.condition(x) <==> Failed(x)
    requires ResponseOf(r).Some? ==> IsIdempotent(ResponseOf(r).value.verb)
    ensures Decide(c, r, attempt, draw).Some?
            <==> Decide(legacy, r, attempt, draw).Some?
                 || (attempt < c.policy.maxRetries && r.Got? && r.response.status == 429)
    ensures legacy.settings == c.settings && legacy.strategy == c.strategy
            && (r.Got? ==> r.response.retryAfter == 0) && Decide(legacy, r, attempt, draw).Some? ==>
              Decide(c, r, attempt, draw) == Decide(legacy, r, attempt, draw)
  {
  }

  lemma FailingAttempt(c: Config, env: Env, w: World, attempt: int, w': World, result: Option<Result>)
    requires c.policy.Default? && c.limiter.None? && c.budget.None?
    requires forall i: nat :: Retryable(env.replies(i))
    requires w.breaker.state.StateClosed? && w.breaker.failures + 1 < c.breaker.failureThreshold
    requires (w', result) == Attempt(c, env, w, attempt)
    ensures result.None? <==> attempt < c.policy.maxRetries
    ensures w'.breaker.state.StateClosed? && w'.breaker.failures <= w.breaker.failures + 1
    ensures Passes(c, env, w)
  {
  }

  /** A failing request at the beginning of an attempt, when it has been sent the given number of times. */
  ghost predicate StillFailing(c: Config, w: World, attempt: int, sends: int) {
    && attempt <= c.policy.maxRetries && Count(w.log, Sending) == sends && w.breaker.state.StateClosed?
    && w.breaker.failures + (c.policy.maxRetries - attempt) + 1 < c.breaker.failureThreshold
  }

  lemma FailingOn(c: Config, env: Env, w: World, attempt: int, sends: int)
    requires c.policy.Default? && c.limiter.None? && c.budget.None?
    requires forall i: nat :: Retryable(env.replies(i))
    requires StillFailing(c, w, attempt, sends)
    ensures var (w', result) := Attempt(c, env, w, attempt);
            if result.Some? then attempt == c.policy.maxRetries && Count(w'.log, Sending) == sends + 1
            else StillFailing(c, w', attempt + 1, sends + 1)
  {
    var (w', result) := Attempt(c, env, w, attempt);
    FailingAttempt(c, env, w, attempt, w', result);
    AttemptSends(c, env, w, attempt);
  }

  /**
   The bound on sends is reached, by requests of any method: when every reply is one that the policy retries, and no
   limiter, open breaker or budget intervenes, a request is sent once and then maxRetries times more.
   */
  lemma FailingRequest(c: Config, env: Env, w: World, attempt: int)
    requires c.policy.Default? && c.limiter.None? && c.budget.None? && attempt <= c.policy.maxRetries
    requires forall i: nat :: Retryable(env.replies(i))
    requires w.breaker.state.StateClosed?
    requires w.breaker.failures + (c.policy.maxRetries - attempt) + 1 < c.breaker.failureThreshold
    ensures Count(Perform(c, env, w, attempt).0.log, Sending)
            == Count(w.log, Sending) + (c.policy.maxRetries - attempt) + 1
  {
    var first := Count(w.log, Sending) - attempt;
    var open := (v: World, a: int) => StillFailing(c, v, a, first + a);
    var over := (v: World, r: Result) => Count(v.log, Sending) == first + c.policy.maxRetries + 1;
    forall v, a | open(v, a)
      ensures Leads(c, env, v, a, open, over)
    {
      FailingOn(c, env, v, a, first + a);
    }
    assert StillFailing(c, w, attempt, first + attempt);
    LoopInduction(c, env, w, attempt, open, over);
  }

  /**
   How long a retry waits: as long as the server asks for in a response that the default policy retries, and otherwise
   what the strategy says.
   */
  lemma DelayDecided(c: Config, r: Reply, attempt: int, draw: real)
    ensures var d := Decide(c, r, attempt, draw);
            d.Some? ==>
              d.value == if c.policy.Default? && r.Got? && r.response.retryAfter != 0 then r.response.retryAfter
                         else Backoff.Delay(c.strategy, attempt, c.settings, draw)
  {
  }

  /** A GET answered 429 with Retry-After waits just so long, a POST answered 200 is not sent again. */
  lemma DecideExamples(c: Config, seconds: int, draw: real)
    requires c.policy.Default? && c.policy.maxRetries >= 1 && seconds >= 1
    ensures Decide(c, Got(Response(429, "GET", seconds * SECOND)), 0, draw) == Some(seconds * SECOND)
    ensures Decide(c, Got(Response(200, "POST", 0)), 0, draw) == None
  {
  }

  /** Every delay lies between zero and maxBackoff, unless the server asked for another by Retry-After. */
  lemma DelaysBounded(c: Config, r: Reply, attempt: int, draw: real)
    requires 0 < c.settings.initialBackoff <= c.settings.maxBackoff && 0.0 <= draw < 1.0
    ensures var d := Decide(c, r, attempt, draw);
            d.Some? ==> 0 <= d.value <= c.settings.maxBackoff
                        || (c.policy.Default? && r.Got? && d.value == r.response.retryAfter != 0)
  {
    var s := c.settings;
    Backoff.ExponentialCapped(attempt, s.initialBackoff, s.maxBackoff, s.backoffMultiplier, s.jitter, draw);
    Backoff.DecorrelatedRange(attempt, s.initialBackoff, s.maxBackoff, draw);
  }
}
