/**
 The two circuit breakers, circuit_breaker.go and circuit_breaker_optimized.go, each driven by one caller at a time:
 they are bisimilar, and their state has a plain meaning in terms of the calls made so far.
 */
module CircuitBreaker {
  import opened Base

  datatype CircuitState = StateClosed | StateOpen | StateHalfOpen

  datatype Config = Config(failureThreshold: int, recoveryTimeout: int, successThreshold: int)

  /** Both constructors replace zero fields, and only those, by defaults. */
  function WithDefaults(c: Config): Config {
    Config(if c.failureThreshold == 0 then 5 else c.failureThreshold,
           if c.recoveryTimeout == 0 then 60 * SECOND else c.recoveryTimeout,
           if c.successThreshold == 0 then 2 else c.successThreshold)
  }

  datatype Breaker = Breaker(state: CircuitState, failures: int, lastFailure: int, successes: int)

  const NEW_BREAKER := Breaker(StateClosed, 0, 0, 0)

  datatype Event = Allow(now: int) | Failure(now: int) | Success

  /** The next state of the original breaker, and the answer when the event is Allow. */
  function Step(c: Config, b: Breaker, e: Event): (Breaker, bool) {
    match e
    case Allow(now) => (
      match b.state
      case StateClosed => (b, true)
      case StateOpen =>
        if now - b.lastFailure >= c.recoveryTimeout then (b.(state := StateHalfOpen, successes := 0), true)
        else (b, false)
      case StateHalfOpen => (b, true))
    case Failure(now) => (
      var b' := b.(lastFailure := now);
      match b.state
      case StateClosed =>
        (b'.(failures := b.failures + 1,
             state := if b.failures + 1 >= c.failureThreshold then StateOpen else StateClosed), true)
      case StateOpen => (b', true)
      case StateHalfOpen => (b'.(failures := b.failures + 1, state := StateOpen, successes := 0), true))
    case Success =>
      if b.state.StateHalfOpen? then
        if b.successes + 1 >= c.successThreshold then (b.(state := StateClosed, failures := 0, successes := 0), true)
        else (b.(successes := b.successes + 1), true)
      else (b, true)
  }

  class CircuitBreaker {
    const config: Config
    var state: CircuitState
    var failures: int
    var lastFailure: int
    var successes: int

    ghost function Value(): Breaker
      reads this
    {
      Breaker(state, failures, lastFailure, successes)
    }

    constructor (config: Config)
      ensures this.config == WithDefaults(config) && Value() == NEW_BREAKER
    {
      this.config := WithDefaults(config);
      state, failures, lastFailure, successes := StateClosed, 0, 0, 0;
    }

    method Allow(now: int) returns (allowed: bool)
      modifies this
      ensures (Value(), allowed) == Step(config, old(Value()), Event.Allow(now))
    {
      match state {
        case StateClosed => return true;
        case StateOpen =>
          if now - lastFailure >= config.recoveryTimeout {
            state := StateHalfOpen;
            successes := 0;
            return true;
          }
          return false;
        case StateHalfOpen => return true;
      }
    }

    method RecordFailure(now: int)
      modifies this
      ensures Value() == Step(config, old(Value()), Failure(now)).0
    {
      lastFailure := now;
      match state {
        case StateClosed =>
          failures := failures + 1;
          if failures >= config.failureThreshold {
            state := StateOpen;
          }
        case StateOpen =>
        case StateHalfOpen =>
          failures := failures + 1;
          state := StateOpen;
          successes := 0;
      }
    }

    method RecordSuccess()
      modifies this
      ensures Value() == Step(config, old(Value()), Success).0
    {
      if state.StateHalfOpen? {
        successes := successes + 1;
        if successes >= config.successThreshold {
          state := StateClosed;
          failures := 0;
          successes := 0;
        }
      }
    }
  }

  /** The next state of the optimized breaker: it also counts failures while Open. */
  function OptimizedStep(c: Config, b: Breaker, e: Event): (Breaker, bool) {
    match e
    case Allow(now) => (
      match b.state
      case StateClosed => (b, true)
      case StateOpen =>
        if now - b.lastFailure >= c.recoveryTimeout then (b.(state := StateHalfOpen, successes := 0), true)
        else (b, false)
      case StateHalfOpen => (b, true))
    case Failure(now) => (
      var b' := b.(lastFailure := now, failures := b.failures + 1);
      match b.state
      case StateClosed => (b'.(state := if b'.failures >= c.failureThreshold then StateOpen else StateClosed), true)
      case StateOpen => (b', true)
      case StateHalfOpen => (b'.(successes := 0, state := StateOpen), true))
    case Success =>
      if b.state.StateHalfOpen? then
        var successes := b.successes + 1;
        if successes >= c.successThreshold then (b.(state := StateClosed, failures := 0, successes := 0), true)
        else (b.(successes := successes), true)
      else (b, true)
  }

  class OptimizedCircuitBreaker {
    const config: Config
    var state: CircuitState
    var failures: int
    var lastFailure: int
    var successes: int

    ghost function Value(): Breaker
      reads this
    {
      Breaker(state, failures, lastFailure, successes)
    }

    constructor (config: Config)
      ensures this.config == WithDefaults(config) && Value() == NEW_BREAKER
    {
      this.config := WithDefaults(config);
      state, failures, lastFailure, successes := StateClosed, 0, 0, 0;
    }

    method Allow(now: int) returns (allowed: bool)
      modifies this
      ensures (Value(), allowed) == OptimizedStep(config, old(Value()), Event.Allow(now))
    {
      var currentState := state;
      if currentState.StateClosed? {
        return true;
      } else if currentState.StateOpen? {
        var lastFail := lastFailure;
        if now - lastFail >= config.recoveryTimeout {
          // with one caller the compare-and-swap finds the state still Open
          state := StateHalfOpen;
          successes := 0;
          return true;
        }
        return false;
      }
      return true;
    }

    method RecordFailure(now: int)
      modifies this
      ensures Value() == OptimizedStep(config, old(Value()), Failure(now)).0
    {
      lastFailure := now;
      var currentState := state;
      match currentState {
        case StateClosed =>
          failures := failures + 1;
          if failures >= config.failureThreshold {
            state := StateOpen;
          }
        case StateOpen =>
          failures := failures + 1;
        case StateHalfOpen =>
          successes := 0;
          failures := failures + 1;
          state := StateOpen;
      }
    }

    method RecordSuccess()
      modifies this
      ensures Value() == OptimizedStep(config, old(Value()), Success).0
    {
      var currentState := state;
      if currentState.StateHalfOpen? {
        successes := successes + 1;
        if successes >= config.successThreshold {
          state := StateClosed;
          failures := 0;
          successes := 0;
        }
      }
    }
  }

  // ---------- runs and bisimulation ----------

  function Run(c: Config, events: seq<Event>): Breaker {
    if events == [] then NEW_BREAKER
    else Step(c, Run(c, events[..|events| - 1]), events[|events| - 1]).0
  }

  function OptimizedRun(c: Config, events: seq<Event>): Breaker {
    if events == [] then NEW_BREAKER
    else OptimizedStep(c, OptimizedRun(c, events[..|events| - 1]), events[|events| - 1]).0
  }

  /** Equal in everything a caller can see, and in the failure count whenever it matters. */
  ghost predicate Alike(a: Breaker, b: Breaker) {
    && a.state == b.state && a.successes == b.successes && a.lastFailure == b.lastFailure
    && (a.state.StateClosed? ==> a.failures == b.failures)
  }

  /** Every event takes alike breakers to alike breakers with the same answer. */
  lemma Bisimulation(c: Config, a: Breaker, b: Breaker, e: Event)
    requires Alike(a, b)
    ensures Alike(Step(c, a, e).0, OptimizedStep(c, b, e).0)
    ensures Step(c, a, e).1 == OptimizedStep(c, b, e).1
  {
  }

  /** Over every sequential run, with any configuration and any clock, the two breakers answer every Allow alike. */
  lemma {:induction false} Replaceable(c: Config, events: seq<Event>, now: int)
    ensures Alike(Run(c, events), OptimizedRun(c, events))
    ensures Step(c, Run(c, events), Allow(now)).1 == OptimizedStep(c, OptimizedRun(c, events), Allow(now)).1
  {
    if events != [] {
      Replaceable(c, events[..|events| - 1], now);
      Bisimulation(c, Run(c, events[..|events| - 1]), OptimizedRun(c, events[..|events| - 1]), events[|events| - 1]);
    }
  }

  // ---------- what the state means ----------

  function Failures(events: seq<Event>): nat {
    if events == [] then 0
    else Failures(events[..|events| - 1]) + if events[|events| - 1].Failure? then 1 else 0
  }

  function Successes(events: seq<Event>): nat {
    if events == [] then 0
    else Successes(events[..|events| - 1]) + if events[|events| - 1].Success? then 1 else 0
  }

  /** How many events had happened when the breaker entered the state it is in now. */
  function Entered(c: Config, events: seq<Event>): (n: nat)
    ensures n <= |events|
  {
    if events == [] then 0
    else
      var before := events[..|events| - 1];
      if Run(c, events).state == Run(c, before).state then Entered(c, before) else |events|
  }

  /** The events since the breaker entered its present state. */
  function Since(c: Config, events: seq<Event>): seq<Event> {
    events[Entered(c, events)..]
  }

  /** How the events since the last change of state grow: event e took the breaker from state source to state target. */
  function Extend(since: seq<Event>, e: Event, source: CircuitState, target: CircuitState): seq<Event> {
    if source == target then since + [e] else []
  }

  lemma SinceStep(c: Config, events: seq<Event>)
    requires events != []
    ensures var before, e := events[..|events| - 1], events[|events| - 1];
            && Run(c, events) == Step(c, Run(c, before), e).0
            && Since(c, events) == Extend(Since(c, before), e, Run(c, before).state, Run(c, events).state)
  {
  }

  /** b's counters count the events since it entered its state, and stand below the thresholds. */
  ghost predicate Counts(c: Config, b: Breaker, since: seq<Event>) {
    match b.state
    case StateClosed => b.failures == Failures(since) < Max(1, c.failureThreshold)
    case StateOpen => true
    case StateHalfOpen => Failures(since) == 0 && b.successes == Successes(since) < Max(1, c.successThreshold)
  }

  lemma CountsStep(c: Config, b: Breaker, since: seq<Event>, e: Event)
    requires Counts(c, b, since)
    ensures var b' := Step(c, b, e).0; Counts(c, b', Extend(since, e, b.state, b'.state))
  {
  }

  /**
   While Closed, failures counts the failures since the breaker last closed, whatever successes came between. While
   HalfOpen, successes counts the successes since it became so, and no failure came since.
   */
  lemma {:induction false} CountersMeaning(c: Config, events: seq<Event>)
    ensures Counts(c, Run(c, events), Since(c, events))
  {
    if events == [] {
      assert Since(c, events) == [];
    } else {
      var before, e := events[..|events| - 1], events[|events| - 1];
      CountersMeaning(c, before);
      SinceStep(c, events);
      CountsStep(c, Run(c, before), Since(c, before), e);
    }
  }

  /** The breaker opens exactly at the FailureThreshold-th failure since it last closed. */
  lemma OpensAtThreshold(c: Config, events: seq<Event>, e: Event)
    requires Run(c, events).state.StateClosed?
    ensures Run(c, events + [e]).state.StateOpen?
            <==> e.Failure? && Failures(Since(c, events)) + 1 == Max(1, c.failureThreshold)
    ensures !Run(c, events + [e]).state.StateHalfOpen?
  {
    CountersMeaning(c, events);
    assert (events + [e])[..|events|] == events;
  }

  /**
   The breaker closes exactly at the SuccessThreshold-th success since it became HalfOpen, and reopens at a failure.
   */
  lemma ClosesAtThreshold(c: Config, events: seq<Event>, e: Event)
    requires Run(c, events).state.StateHalfOpen?
    ensures Failures(Since(c, events)) == 0
    ensures Run(c, events + [e]).state.StateClosed?
            <==> e.Success? && Successes(Since(c, events)) + 1 == Max(1, c.successThreshold)
    ensures Run(c, events + [e]).state.StateOpen? <==> e.Failure?
  {
    CountersMeaning(c, events);
    assert (events + [e])[..|events|] == events;
  }

  /**
   A HalfOpen stretch begins with an Allow granted while Open; a Closed one at the start or with a HalfOpen success.
   */
  lemma {:induction false} HowEntered(c: Config, events: seq<Event>)
    ensures var n := Entered(c, events);
            && (Run(c, events).state.StateHalfOpen? ==>
                  n > 0 && events[n - 1].Allow? && Run(c, events[..n - 1]).state.StateOpen?)
            && (Run(c, events).state.StateClosed? ==>
                  n == 0 || (events[n - 1].Success? && Run(c, events[..n - 1]).state.StateHalfOpen?))
  {
    if events != [] {
      var k := |events| - 1;
      HowEntered(c, events[..k]);
      var n := Entered(c, events);
      if n <= k && n > 0 { assert events[..k][..n - 1] == events[..n - 1]; }
    }
  }

  /** Every failure of the run is at least d old at time now. */
  ghost predicate FailuresOlder(events: seq<Event>, now: int, d: int) {
    forall i :: 0 <= i < |events| && events[i].Failure? ==> now - events[i].now >= d
  }

  /** The clock readings of a run never go back. */
  ghost predicate Clocked(events: seq<Event>) {
    forall i, j :: 0 <= i < j < |events| && !events[i].Success? && !events[j].Success?
        ==> events[i].now <= events[j].now
  }

  lemma {:induction false} LastFailureMeaning(c: Config, events: seq<Event>)
    requires Clocked(events)
    ensures forall i :: 0 <= i < |events| && events[i].Failure? ==> events[i].now <= Run(c, events).lastFailure
    ensures (exists i :: 0 <= i < |events| && events[i] == Failure(Run(c, events).lastFailure))
            || (Failures(events) == 0 && Run(c, events).state.StateClosed?)
  {
    if events != [] {
      var k := |events| - 1;
      LastFailureMeaning(c, events[..k]);
      if events[k].Failure? {
        assert events[k] == Failure(Run(c, events).lastFailure);
      }
    }
  }

  /** lastFailure is the time of the last failure, whatever the clock does. */
  lemma {:induction false} LastFailureIsLatest(c: Config, events: seq<Event>, i: nat)
    requires i < |events| && events[i].Failure? && forall j :: i < j < |events| ==> !events[j].Failure?
    ensures Run(c, events).lastFailure == events[i].now
    decreases |events|
  {
    var k := |events| - 1;
    if i < k { LastFailureIsLatest(c, events[..k], i); }
  }

  /**
   An Allow is denied exactly while the breaker is Open and a failure was recorded within the preceding RecoveryTimeout,
   and it changes the state only where it is granted to an Open breaker.
   */
  lemma AllowMeaning(c: Config, events: seq<Event>, now: int)
    requires Clocked(events)
    ensures var b := Run(c, events);
            var (b', granted) := Step(c, b, Allow(now));
            && (granted <==> !b.state.StateOpen? || FailuresOlder(events, now, c.recoveryTimeout))
            && b'.state == (if b.state.StateOpen? && granted then StateHalfOpen else b.state)
            && b'.failures == b.failures && b'.lastFailure == b.lastFailure
  {
    if Run(c, events).state.StateOpen? { ProbesAfterTimeout(c, events, now); }
  }

  /** An Open breaker stays Open but for a granted Allow. */
  lemma LeavesOpen(c: Config, events: seq<Event>, e: Event)
    requires Clocked(events) && Run(c, events).state.StateOpen?
    ensures Run(c, events + [e]).state
            == if e.Allow? && FailuresOlder(events, e.now, c.recoveryTimeout) then StateHalfOpen else StateOpen
  {
    assert (events + [e])[..|events|] == events;
    if e.Allow? { ProbesAfterTimeout(c, events, e.now); }
  }

  /** Zero stands for five failures, a minute, and two successes; anything else is kept. */
  lemma DefaultsMeaning(c: Config)
    ensures WithDefaults(Config(0, 0, 0)) == Config(5, 60_000_000_000, 2)
    ensures c.failureThreshold != 0 && c.recoveryTimeout != 0 && c.successThreshold != 0 ==> WithDefaults(c) == c
    ensures WithDefaults(WithDefaults(c)) == WithDefaults(c)
  {
  }

  /** While Open, Allow is granted exactly when no failure was recorded within the preceding RecoveryTimeout. */
  lemma {:induction false} ProbesAfterTimeout(c: Config, events: seq<Event>, now: int)
    requires Clocked(events) && Run(c, events).state.StateOpen?
    ensures Step(c, Run(c, events), Allow(now)).1 <==> FailuresOlder(events, now, c.recoveryTimeout)
    ensures Run(c, events + [Allow(now)]).state.StateHalfOpen? <==> FailuresOlder(events, now, c.recoveryTimeout)
  {
    LastFailureMeaning(c, events);
    assert (events + [Allow(now)])[..|events|] == events;
  }
}
