/**
 The optimized circuit breaker at the level of its atomic loads, adds, stores and compare-and-swaps, interleaved by any
 number of threads. Reset is not among the calls.
 */
module BreakerSteps {
  import opened Base
  import opened CircuitBreaker

  datatype Call = CallAllow | CallFailure | CallSuccess

  /** Where a thread stands: the atomic action it performs next, with its local variables. */
  datatype Pc =
    | Idle
    | AllowLoad | AllowClock | AllowLastFailure(now: int) | AllowSwap | AllowClear | AllowReread
    | FailClock | FailStamp(now: int) | FailLoad
    | FailCountClosed | FailSwap | FailCountOpen
    | FailClear | FailCountHalfOpen | FailStore
    | OkLoad | OkCount | OkSwap | OkZeroFailures | OkZeroSuccesses

  /** A change of the shared state, with the atomic action that made it. */
  datatype Move = Move(source: CircuitState, target: CircuitState, cause: Pc)

  /** The answer of an Allow, and whether its own compare-and-swap moved the breaker to HalfOpen. */
  datatype Answer = Answer(allowed: bool, won: bool)

  datatype State = State(shared: Breaker, clock: int, threads: seq<Pc>, moves: seq<Move>, answers: seq<Answer>)

  datatype Action = Wait(d: nat) | Begin(t: nat, call: Call) | Run(t: nat)

  function Goto(s: State, t: nat, pc: Pc): State
    requires t < |s.threads|
  {
    s.(threads := s.threads[t := pc])
  }

  function Reply(s: State, t: nat, allowed: bool, won: bool): State
    requires t < |s.threads|
  {
    Goto(s, t, Idle).(answers := s.answers + [Answer(allowed, won)])
  }

  /** Storing target into the shared state; only a change is logged. */
  function Enter(s: State, target: CircuitState, cause: Pc): State {
    s.(shared := s.shared.(state := target),
       moves := if s.shared.state == target then s.moves else s.moves + [Move(s.shared.state, target, cause)])
  }

  function Step(c: Config, s: State, t: nat): (s': State)
    requires t < |s.threads|
    ensures |s'.threads| == |s.threads|
  {
    var b := s.shared;
    var pc := s.threads[t];
    match pc
    case Idle => s
    case AllowLoad =>
      if b.state.StateOpen? then Goto(s, t, AllowClock) else Reply(s, t, true, false)
    case AllowClock => Goto(s, t, AllowLastFailure(s.clock))
    case AllowLastFailure(now) =>
      if now - b.lastFailure >= c.recoveryTimeout then Goto(s, t, AllowSwap) else Reply(s, t, false, false)
    case AllowSwap =>
      if b.state.StateOpen? then Goto(Enter(s, StateHalfOpen, pc), t, AllowClear) else Goto(s, t, AllowReread)
    case AllowClear => Reply(s.(shared := b.(successes := 0)), t, true, true)
    case AllowReread => Reply(s, t, b.state.StateHalfOpen?, false)
    case FailClock => Goto(s, t, FailStamp(s.clock))
    case FailStamp(now) => Goto(s.(shared := b.(lastFailure := now)), t, FailLoad)
    case FailLoad => (
      match b.state
      case StateClosed => Goto(s, t, FailCountClosed)
      case StateOpen => Goto(s, t, FailCountOpen)
      case StateHalfOpen => Goto(s, t, FailClear))
    case FailCountClosed =>
      Goto(s.(shared := b.(failures := b.failures + 1)), t,
           if b.failures + 1 >= c.failureThreshold then FailSwap else Idle)
    case FailSwap => Goto(if b.state.StateClosed? then Enter(s, StateOpen, pc) else s, t, Idle)
    case FailCountOpen => Goto(s.(shared := b.(failures := b.failures + 1)), t, Idle)
    case FailClear => Goto(s.(shared := b.(successes := 0)), t, FailCountHalfOpen)
    case FailCountHalfOpen => Goto(s.(shared := b.(failures := b.failures + 1)), t, FailStore)
    case FailStore => Goto(Enter(s, StateOpen, pc), t, Idle)  // a plain store, whatever the state is by now
    case OkLoad => Goto(s, t, if b.state.StateHalfOpen? then OkCount else Idle)
    case OkCount =>
      Goto(s.(shared := b.(successes := b.successes + 1)), t,
           if b.successes + 1 >= c.successThreshold then OkSwap else Idle)
    case OkSwap =>
      if b.state.StateHalfOpen? then Goto(Enter(s, StateClosed, pc), t, OkZeroFailures) else Goto(s, t, Idle)
    case OkZeroFailures => Goto(s.(shared := b.(failures := 0)), t, OkZeroSuccesses)
    case OkZeroSuccesses => Goto(s.(shared := b.(successes := 0)), t, Idle)
  }

  function First(call: Call): Pc {
    match call
    case CallAllow => AllowLoad
    case CallFailure => FailClock
    case CallSuccess => OkLoad
  }

  function Act(c: Config, s: State, a: Action): State {
    match a
    case Wait(d) => s.(clock := s.clock + d)
    case Begin(t, call) => if t < |s.threads| && s.threads[t].Idle? then Goto(s, t, First(call)) else s
    case Run(t) => if t < |s.threads| then Step(c, s, t) else s
  }

  /** Every interleaving of n threads is a sequence of actions. */
  function Reach(c: Config, start: int, n: nat, actions: seq<Action>): State {
    if actions == [] then State(NEW_BREAKER, start, seq(n, i => Idle), [], [])
    else Act(c, Reach(c, start, n, actions[..|actions| - 1]), actions[|actions| - 1])
  }

  // ---------- transition safety ----------

  /** The only moves there are, each with the atomic action that makes it. */
  predicate Legal(m: Move) {
    match m.source
    case StateClosed => m.target.StateOpen? && (m.cause.FailSwap? || m.cause.FailStore?)
    case StateOpen => m.target.StateHalfOpen? && m.cause.AllowSwap?
    case StateHalfOpen => (m.target.StateClosed? && m.cause.OkSwap?) || (m.target.StateOpen? && m.cause.FailStore?)
  }

  function Count(moves: seq<Move>, source: CircuitState, target: CircuitState): nat {
    if moves == [] then 0
    else
      var last := |moves| - 1;
      Count(moves[..last], source, target)
      + if moves[last].source == source && moves[last].target == target then 1 else 0
  }

  function Wins(answers: seq<Answer>): nat {
    if answers == [] then 0
    else Wins(answers[..|answers| - 1]) + if answers[|answers| - 1].won then 1 else 0
  }

  /** How many threads have won a probe and not answered yet. */
  function Winning(threads: seq<Pc>): nat {
    if threads == [] then 0
    else (if threads[0].AllowClear? then 1 else 0) + Winning(threads[1..])
  }

  lemma {:induction false} WinningUpdate(threads: seq<Pc>, t: nat, pc: Pc)
    requires t < |threads|
    ensures Winning(threads[t := pc])
            == Winning(threads) - (if threads[t].AllowClear? then 1 else 0) + if pc.AllowClear? then 1 else 0
  {
    if t == 0 {
      assert threads[t := pc][1..] == threads[1..];
    } else {
      assert threads[t := pc][1..] == threads[1..][t - 1 := pc];
      WinningUpdate(threads[1..], t - 1, pc);
    }
  }

  lemma {:induction false} NoneWinning(n: nat)
    ensures Winning(seq(n, i => Idle)) == 0
  {
    if n > 0 {
      assert seq(n, i => Idle)[1..] == seq(n - 1, i => Idle);
      NoneWinning(n - 1);
    }
  }

  function Opened(moves: seq<Move>): nat { Count(moves, StateClosed, StateOpen) }

  function Probed(moves: seq<Move>): nat { Count(moves, StateOpen, StateHalfOpen) }

  function Reclosed(moves: seq<Move>): nat { Count(moves, StateHalfOpen, StateClosed) }

  function Reopened(moves: seq<Move>): nat { Count(moves, StateHalfOpen, StateOpen) }

  /** The moves so far are legal and run on from Closed to state, which fixes how many of each kind there were. */
  ghost predicate Traced(moves: seq<Move>, state: CircuitState) {
    && (forall i :: 0 <= i < |moves| ==> Legal(moves[i]))
    && (forall i :: 0 < i < |moves| ==> moves[i].source == moves[i - 1].target)
    && (if moves == [] then state.StateClosed?
        else moves[0].source.StateClosed? && moves[|moves| - 1].target == state)
    && Opened(moves) - Reclosed(moves) == (if state.StateClosed? then 0 else 1)
    && Probed(moves) - Reclosed(moves) - Reopened(moves) == (if state.StateHalfOpen? then 1 else 0)
  }

  ghost predicate WinnersAllowed(answers: seq<Answer>) {
    forall i :: 0 <= i < |answers| && answers[i].won ==> answers[i].allowed
  }

  /** Every move to HalfOpen belongs to one Allow, which has answered true or is about to. */
  ghost predicate Won(moves: seq<Move>, answers: seq<Answer>, threads: seq<Pc>) {
    Probed(moves) == Wins(answers) + Winning(threads) && WinnersAllowed(answers)
  }

  lemma LogMove(moves: seq<Move>, m: Move)
    ensures Opened(moves + [m]) == Opened(moves) + if m.source.StateClosed? && m.target.StateOpen? then 1 else 0
    ensures Probed(moves + [m]) == Probed(moves) + if m.source.StateOpen? && m.target.StateHalfOpen? then 1 else 0
    ensures Reclosed(moves + [m]) == Reclosed(moves) + if m.source.StateHalfOpen? && m.target.StateClosed? then 1 else 0
    ensures Reopened(moves + [m]) == Reopened(moves) + if m.source.StateHalfOpen? && m.target.StateOpen? then 1 else 0
  {
    assert (moves + [m])[..|moves|] == moves;
  }

  lemma TraceMove(moves: seq<Move>, m: Move)
    requires Traced(moves, m.source) && Legal(m)
    ensures Traced(moves + [m], m.target)
  {
    LogMove(moves, m);
  }

  /** What a step does to the log: nothing, or one legal move from the present state to the next. */
  lemma StepMoves(c: Config, s: State, t: nat)
    requires t < |s.threads|
    ensures var s' := Step(c, s, t);
            var m := Move(s.shared.state, s'.shared.state, s.threads[t]);
            if s'.shared.state == s.shared.state then s'.moves == s.moves
            else s'.moves == s.moves + [m] && Legal(m)
  {
  }

  lemma StepTraced(c: Config, s: State, t: nat)
    requires Traced(s.moves, s.shared.state) && t < |s.threads|
    ensures var s' := Step(c, s, t); Traced(s'.moves, s'.shared.state)
  {
    var s' := Step(c, s, t);
    StepMoves(c, s, t);
    if s'.shared.state != s.shared.state {
      TraceMove(s.moves, Move(s.shared.state, s'.shared.state, s.threads[t]));
    }
  }

  lemma Answered(answers: seq<Answer>, a: Answer)
    requires WinnersAllowed(answers) && (a.won ==> a.allowed)
    ensures Wins(answers + [a]) == Wins(answers) + (if a.won then 1 else 0) && WinnersAllowed(answers + [a])
  {
  }

  /** The answer a step gives, if any. */
  function AnswerOf(c: Config, s: State, t: nat): Option<Answer>
    requires t < |s.threads|
  {
    var pc := s.threads[t];
    if pc.AllowLoad? && !s.shared.state.StateOpen? then Some(Answer(true, false))
    else if pc.AllowLastFailure? && pc.now - s.shared.lastFailure < c.recoveryTimeout then Some(Answer(false, false))
    else if pc.AllowClear? then Some(Answer(true, true))
    else if pc.AllowReread? then Some(Answer(s.shared.state.StateHalfOpen?, false))
    else None
  }

  lemma StepAnswers(c: Config, s: State, t: nat)
    requires t < |s.threads|
    ensures var s' := Step(c, s, t);
            && s'.answers == (if AnswerOf(c, s, t).Some? then s.answers + [AnswerOf(c, s, t).value] else s.answers)
            && s'.threads == s.threads[t := s'.threads[t]]
            && (s'.threads[t].AllowClear? <==> s.threads[t].AllowSwap? && s.shared.state.StateOpen?)
  {
  }

  lemma StepProbed(c: Config, s: State, t: nat)
    requires t < |s.threads|
    ensures Probed(Step(c, s, t).moves)
            == Probed(s.moves) + if s.threads[t].AllowSwap? && s.shared.state.StateOpen? then 1 else 0
  {
    var s' := Step(c, s, t);
    StepMoves(c, s, t);
    if s'.shared.state != s.shared.state {
      LogMove(s.moves, Move(s.shared.state, s'.shared.state, s.threads[t]));
    }
  }

  lemma StepWon(c: Config, s: State, t: nat)
    requires Won(s.moves, s.answers, s.threads) && t < |s.threads|
    ensures var s' := Step(c, s, t); Won(s'.moves, s'.answers, s'.threads)
  {
    StepAnswers(c, s, t);
    StepProbed(c, s, t);
    WonAfter(s, Step(c, s, t), t, AnswerOf(c, s, t), s.threads[t].AllowSwap? && s.shared.state.StateOpen?);
  }

  lemma WonAfter(s: State, s': State, t: nat, a: Option<Answer>, wins: bool)
    requires Won(s.moves, s.answers, s.threads) && t < |s.threads| && |s'.threads| == |s.threads|
    requires s'.answers == if a.Some? then s.answers + [a.value] else s.answers
    requires s'.threads == s.threads[t := s'.threads[t]] && (s'.threads[t].AllowClear? <==> wins)
    requires Probed(s'.moves) == Probed(s.moves) + if wins then 1 else 0
    requires if s.threads[t].AllowClear? then a == Some(Answer(true, true)) else a.None? || !a.value.won
    ensures Won(s'.moves, s'.answers, s'.threads)
  {
    WinningUpdate(s.threads, t, s'.threads[t]);
    if a.Some? { Answered(s.answers, a.value); }
  }

  /**
   Over every interleaving the state never goes from Open to Closed nor from Closed to HalfOpen, the openings exceed the
   closings by one exactly while the breaker is not Closed, and each move to HalfOpen is won by exactly one Allow.
   */
  lemma {:induction false} AlwaysSafe(c: Config, start: int, n: nat, actions: seq<Action>)
    ensures var s := Reach(c, start, n, actions); Traced(s.moves, s.shared.state) && Won(s.moves, s.answers, s.threads)
  {
    if actions == [] {
      NoneWinning(n);
    } else {
      var s := Reach(c, start, n, actions[..|actions| - 1]);
      AlwaysSafe(c, start, n, actions[..|actions| - 1]);
      match actions[|actions| - 1]
      case Wait(d) =>
      case Begin(t, call) => if t < |s.threads| { WinningUpdate(s.threads, t, First(call)); }
      case Run(t) => if t < |s.threads| { StepTraced(c, s, t); StepWon(c, s, t); }
    }
  }

  // ---------- what answers and effects mean ----------

  /**
   The past of a call: the state it began in, what it saw of the breaker when it first looked, when it read the clock,
   and whether it lost the swap to HalfOpen.
   */
  datatype Past = Past(from: State, seen: CircuitState, read: int, lost: bool)

  function PastMore(past: Past, s: State, a: Action, t: nat): Past {
    if t >= |s.threads| || a.Wait? || a.t != t then past
    else
      var pc := s.threads[t];
      if a.Begin? then if pc.Idle? then Past(s, s.shared.state, s.clock, false) else past
      else if pc.AllowLoad? || pc.FailLoad? || pc.OkLoad? then past.(seen := s.shared.state)
      else if pc.AllowClock? || pc.FailClock? then past.(read := s.clock)
      else if pc.AllowSwap? && !s.shared.state.StateOpen? then past.(lost := true)
      else past
  }

  function PastOf(c: Config, start: int, n: nat, actions: seq<Action>, t: nat): Past {
    if actions == [] then Past(Reach(c, start, n, []), StateClosed, start, false)
    else
      var before := actions[..|actions| - 1];
      PastMore(PastOf(c, start, n, before, t), Reach(c, start, n, before), actions[|actions| - 1], t)
  }

  /** What the breaker looked like to a call that stands at pc; None where it has not looked or all is done. */
  function Expects(pc: Pc): Option<CircuitState> {
    match pc
    case AllowClock => Some(StateOpen)
    case AllowLastFailure(_) => Some(StateOpen)
    case AllowSwap => Some(StateOpen)
    case AllowReread => Some(StateOpen)
    case FailCountClosed => Some(StateClosed)
    case FailSwap => Some(StateClosed)
    case FailCountOpen => Some(StateOpen)
    case FailClear => Some(StateHalfOpen)
    case FailCountHalfOpen => Some(StateHalfOpen)
    case FailStore => Some(StateHalfOpen)
    case OkCount => Some(StateHalfOpen)
    case OkSwap => Some(StateHalfOpen)
    case _ => None
  }

  /** The locals of a call are in accord with its past. */
  ghost predicate Recalls(past: Past, s: State, pc: Pc) {
    && past.from.clock <= past.read <= s.clock && |past.from.moves| <= |s.moves|
    && (pc.AllowLastFailure? || pc.FailStamp? ==> pc.now == past.read)
    && (Expects(pc).Some? ==> past.seen == Expects(pc).value)
    && (pc.AllowClock? || pc.AllowLastFailure? || pc.AllowSwap? ==>
          s.shared.state.StateOpen? || |s.moves| > |past.from.moves|)
    && (pc.AllowReread? ==> |s.moves| > |past.from.moves|)
    && (!pc.Idle? ==> (past.lost <==> pc.AllowReread?))
  }

  lemma MovesGrow(c: Config, s: State, a: Action)
    ensures var s' := Act(c, s, a);
            && s.clock <= s'.clock && |s.moves| <= |s'.moves| && |s'.threads| == |s.threads|
            && (s'.shared.state != s.shared.state ==> |s'.moves| > |s.moves|)
  {
  }

  lemma RecallsAct(c: Config, past: Past, s: State, a: Action, t: nat)
    requires t < |s.threads| && Recalls(past, s, s.threads[t])
    ensures var s' := Act(c, s, a); t < |s'.threads| && Recalls(PastMore(past, s, a, t), s', s'.threads[t])
  {
    MovesGrow(c, s, a);
    if a == Run(t) { RecallsRun(c, past, s, t); }
  }

  lemma RecallsRun(c: Config, past: Past, s: State, t: nat)
    requires t < |s.threads| && Recalls(past, s, s.threads[t])
    ensures var s' := Step(c, s, t); Recalls(PastMore(past, s, Run(t), t), s', s'.threads[t])
  {
  }

  lemma {:induction false} AlwaysRecalls(c: Config, start: int, n: nat, actions: seq<Action>, t: nat)
    requires t < n
    ensures var s := Reach(c, start, n, actions);
            |s.threads| == n && Recalls(PastOf(c, start, n, actions, t), s, s.threads[t])
  {
    if actions != [] {
      var before, a := actions[..|actions| - 1], actions[|actions| - 1];
      AlwaysRecalls(c, start, n, before, t);
      MovesGrow(c, Reach(c, start, n, before), a);
      RecallsAct(c, PastOf(c, start, n, before, t), Reach(c, start, n, before), a, t);
    }
  }

  /**
   An Allow that does not win the probe is let through at its first look unless the breaker is Open, and after a lost
   swap only if it is HalfOpen. It is denied for a failure too recent at the time that it read, or for having lost the
   swap to another Allow and found the breaker not HalfOpen any more.
   */
  ghost predicate AnswerMeans(c: Config, past: Past, s: State, a: Answer) {
    && (a.won ==> a.allowed && !past.lost)
    && (a.allowed && !a.won ==> if past.lost then s.shared.state.StateHalfOpen? else !s.shared.state.StateOpen?)
    && (!a.allowed ==>
          || (!past.lost && past.read - s.shared.lastFailure < c.recoveryTimeout)
          || (past.lost && |s.moves| > |past.from.moves| && !s.shared.state.StateHalfOpen?))
  }

  /** Over every interleaving each answer means this. */
  lemma AnswersMeaning(c: Config, start: int, n: nat, actions: seq<Action>, t: nat, s: State)
    requires t < n && s == Reach(c, start, n, actions) && Act(c, s, Run(t)).answers != s.answers
    ensures var answers := Act(c, s, Run(t)).answers;
            && |answers| == |s.answers| + 1 && answers[..|s.answers|] == s.answers
            && AnswerMeans(c, PastOf(c, start, n, actions, t), s, answers[|s.answers|])
  {
    AlwaysRecalls(c, start, n, actions, t);
    StepAnswers(c, s, t);
  }

  /**
   What a call does to the breaker goes by what it saw when it looked: it opens a closed one only if it saw it Closed or
   HalfOpen, closes it only if it saw it HalfOpen, probes only if it saw it Open, and stamps the time that it read.
   */
  ghost predicate EffectMeans(past: Past, b: Breaker, b': Breaker) {
    && (b'.lastFailure == b.lastFailure || b'.lastFailure == past.read)
    && (b'.state != b.state ==>
          match b'.state
          case StateClosed => past.seen.StateHalfOpen? && b.state.StateHalfOpen?
          case StateOpen => past.seen.StateHalfOpen? || (past.seen.StateClosed? && b.state.StateClosed?)
          case StateHalfOpen => past.seen.StateOpen? && b.state.StateOpen? && !past.lost)
  }

  lemma EffectsMeaning(c: Config, start: int, n: nat, actions: seq<Action>, t: nat, s: State)
    requires t < n && s == Reach(c, start, n, actions)
    ensures EffectMeans(PastOf(c, start, n, actions, t), s.shared, Act(c, s, Run(t)).shared)
  {
    AlwaysRecalls(c, start, n, actions, t);
  }

  /** The call whose count step reaches a threshold is the one that goes on to swap, whatever the state is by then. */
  lemma CountsDecide(c: Config, s: State, t: nat)
    requires t < |s.threads|
    ensures var s' := Step(c, s, t);
            && (s.threads[t].FailCountClosed? ==>
                  s'.shared.failures == s.shared.failures + 1
                  && (s'.threads[t].FailSwap? <==> s'.shared.failures >= c.failureThreshold))
            && (s.threads[t].OkCount? ==>
                  s'.shared.successes == s.shared.successes + 1
                  && (s'.threads[t].OkSwap? <==> s'.shared.successes >= c.successThreshold))
  {
  }

  // ---------- a thread that runs alone ----------

  function Alone(c: Config, s: State, t: nat, steps: nat): State
    requires t < |s.threads|
    decreases steps
  {
    if steps == 0 then s else Alone(c, Step(c, s, t), t, steps - 1)
  }

  function EventOf(call: Call, now: int): Event {
    match call
    case CallAllow => Allow(now)
    case CallFailure => Failure(now)
    case CallSuccess => Success
  }

  lemma {:induction false} AloneMore(c: Config, s: State, t: nat, a: nat, b: nat)
    requires t < |s.threads|
    ensures |Alone(c, s, t, a).threads| == |s.threads|
    ensures Alone(c, s, t, a + b) == Alone(c, Alone(c, s, t, a), t, b)
    decreases a
  {
    if a > 0 { AloneMore(c, Step(c, s, t), t, a - 1, b); }
  }

  function Thrice(c: Config, s: State, t: nat): (s': State)
    requires t < |s.threads|
    ensures |s'.threads| == |s.threads|
  {
    Step(c, Step(c, Step(c, s, t), t), t)
  }

  lemma SixSteps(c: Config, s: State, t: nat)
    requires t < |s.threads|
    ensures Alone(c, s, t, 6) == Thrice(c, Thrice(c, s, t), t)
  {
  }

  /** The thread has ended its call, having done to the breaker and answered what the sequential call does. */
  ghost predicate Sequential(c: Config, s: State, call: Call, s': State) {
    var (b, answer) := OptimizedStep(c, s.shared, EventOf(call, s.clock));
    && s'.shared == b && s'.threads == s.threads && s'.clock == s.clock
    && (call.CallAllow? ==> |s'.answers| == |s.answers| + 1 && s'.answers[|s.answers|].allowed == answer)
  }

  lemma AloneAllow(c: Config, s: State, t: nat)
    requires t < |s.threads| && s.threads[t].Idle?
    ensures Sequential(c, s, CallAllow, Alone(c, Goto(s, t, AllowLoad), t, 6))
  {
    SixSteps(c, Goto(s, t, AllowLoad), t);
  }

  lemma AloneFailure(c: Config, s: State, t: nat)
    requires t < |s.threads| && s.threads[t].Idle?
    ensures Sequential(c, s, CallFailure, Alone(c, Goto(s, t, FailClock), t, 6))
  {
    SixSteps(c, Goto(s, t, FailClock), t);
  }

  lemma AloneSuccess(c: Config, s: State, t: nat)
    requires t < |s.threads| && s.threads[t].Idle?
    ensures Sequential(c, s, CallSuccess, Alone(c, Goto(s, t, OkLoad), t, 6))
  {
    SixSteps(c, Goto(s, t, OkLoad), t);
  }

  /** A call whose atomic actions no other thread interrupts does exactly what the sequential call does. */
  lemma AloneCall(c: Config, s: State, t: nat, call: Call)
    requires t < |s.threads| && s.threads[t].Idle?
    ensures Sequential(c, s, call, Alone(c, Act(c, s, Begin(t, call)), t, 6))
  {
    match call
    case CallAllow => AloneAllow(c, s, t);
    case CallFailure => AloneFailure(c, s, t);
    case CallSuccess => AloneSuccess(c, s, t);
  }

  lemma FailureBegins(c: Config, s: State, t: nat)
    requires t < |s.threads| && s.threads[t].Idle? && s.shared.state.StateHalfOpen?
    ensures Thrice(c, Act(c, s, Begin(t, CallFailure)), t)
            == s.(shared := s.shared.(lastFailure := s.clock), threads := s.threads[t := FailClear])
  {
  }

  lemma SuccessCloses(c: Config, s: State, t: nat)
    requires t < |s.threads| && s.threads[t].Idle?
    requires s.shared.state.StateHalfOpen? && s.shared.successes + 1 >= c.successThreshold
    ensures Thrice(c, Thrice(c, Act(c, s, Begin(t, CallSuccess)), t), t)
            == s.(shared := s.shared.(state := StateClosed, failures := 0, successes := 0),
                  moves := s.moves + [Move(StateHalfOpen, StateClosed, OkSwap)])
  {
    assert Thrice(c, Act(c, s, Begin(t, CallSuccess)), t)
           == s.(shared := s.shared.(state := StateClosed, successes := s.shared.successes + 1),
                 threads := s.threads[t := OkZeroFailures],
                 moves := s.moves + [Move(StateHalfOpen, StateClosed, OkSwap)]);
    assert s.threads[t := Idle] == s.threads;
  }

  lemma FailureEnds(c: Config, s: State, t: nat)
    requires t < |s.threads| && s.threads[t].FailClear? && s.shared.state.StateClosed?
    ensures var s' := Thrice(c, s, t);
            && s'.shared.state.StateOpen? && s'.shared.failures == s.shared.failures + 1
            && s'.moves == s.moves + [Move(StateClosed, StateOpen, FailStore)]
  {
  }

  /**
   The store that ends a failure is made whatever the state has become, so a failure that began while HalfOpen reopens a
   breaker that another thread has just closed: its failure count is then 1, whatever failureThreshold is.
   */
  lemma StaleStoreOpens(c: Config, s: State, t: nat, u: nat)
    requires t < |s.threads| && u < |s.threads| && t != u && s.threads[t].Idle? && s.threads[u].Idle?
    requires s.shared.state.StateHalfOpen? && s.shared.successes + 1 >= c.successThreshold
    ensures var s1 := Thrice(c, Act(c, s, Begin(t, CallFailure)), t);
            var s2 := Thrice(c, Thrice(c, Act(c, s1, Begin(u, CallSuccess)), u), u);
            var s3 := Thrice(c, s2, t);
            && s2.shared.state.StateClosed? && s3.shared.state.StateOpen? && s3.shared.failures == 1
            && s3.moves == s.moves + [Move(StateHalfOpen, StateClosed, OkSwap), Move(StateClosed, StateOpen, FailStore)]
  {
    var s1 := s.(shared := s.shared.(lastFailure := s.clock), threads := s.threads[t := FailClear]);
    FailureBegins(c, s, t);
    SuccessCloses(c, s1, u);
    FailureEnds(c, Thrice(c, Thrice(c, Act(c, s1, Begin(u, CallSuccess)), u), u), t);
  }
}
