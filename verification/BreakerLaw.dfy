/**
 When interleaved calls of the optimized circuit breaker break the sequential law that it opens at failureThreshold
 failures: exactly which openings fall short, from which states one can come, and what a caller must avoid to rule
 them out.
 */
module BreakerLaw {
  import opened Base
  import opened BreakerSteps
  import CB = CircuitBreaker

  // ---------- the failure count ----------

  /** The atomic action that a makes its thread perform; Idle stands for none. */
  function Performed(s: State, a: Action): Pc {
    if a.Run? && a.t < |s.threads| then s.threads[a.t] else Idle
  }

  predicate Counting(pc: Pc) {
    pc.FailCountClosed? || pc.FailCountOpen? || pc.FailCountHalfOpen?
  }

  /** How many failures have been counted since the count was last set to zero. */
  function CountsSinceZero(c: CB.Config, start: int, n: nat, actions: seq<Action>): nat {
    if actions == [] then 0
    else
      var k := |actions| - 1;
      var pc := Performed(Reach(c, start, n, actions[..k]), actions[k]);
      if pc.OkZeroFailures? then 0
      else CountsSinceZero(c, start, n, actions[..k]) + if Counting(pc) then 1 else 0
  }

  /** Whether the count has been set to zero since thread t last counted a failure of a closed breaker. */
  predicate ZeroedSinceCount(c: CB.Config, start: int, n: nat, actions: seq<Action>, t: nat) {
    if actions == [] then false
    else
      var k := |actions| - 1;
      var pc := Performed(Reach(c, start, n, actions[..k]), actions[k]);
      if pc.FailCountClosed? && actions[k].t == t then false
      else pc.OkZeroFailures? || ZeroedSinceCount(c, start, n, actions[..k], t)
  }

  /** What one action does to the count, and which threads it leaves about to open the breaker. */
  lemma ActCounts(c: CB.Config, s: State, a: Action)
    ensures var s', pc := Act(c, s, a), Performed(s, a);
            && |s'.threads| == |s.threads|
            && s'.shared.failures
                == (if pc.OkZeroFailures? then 0 else s.shared.failures + if Counting(pc) then 1 else 0)
            && forall t :: 0 <= t < |s.threads| && s'.threads[t].FailSwap? ==>
                 if pc.FailCountClosed? && a.t == t then s'.shared.failures >= c.failureThreshold
                 else s.threads[t].FailSwap?
  {
  }

  lemma {:induction false} FailuresMeaning(c: CB.Config, start: int, n: nat, actions: seq<Action>)
    ensures Reach(c, start, n, actions).shared.failures == CountsSinceZero(c, start, n, actions)
    ensures |Reach(c, start, n, actions).threads| == n
  {
    if actions != [] {
      var k := |actions| - 1;
      FailuresMeaning(c, start, n, actions[..k]);
      ActCounts(c, Reach(c, start, n, actions[..k]), actions[k]);
    }
  }

  /**
   A thread about to open the breaker has seen the threshold reached, and only a zeroing since can have undone that.
   */
  lemma {:induction false} SwapMeaning(c: CB.Config, start: int, n: nat, actions: seq<Action>, t: nat)
    requires var s := Reach(c, start, n, actions); t < |s.threads| && s.threads[t].FailSwap?
    ensures Reach(c, start, n, actions).shared.failures >= c.failureThreshold
            || ZeroedSinceCount(c, start, n, actions, t)
  {
    if actions != [] {
      var k := |actions| - 1;
      var s := Reach(c, start, n, actions[..k]);
      ActCounts(c, s, actions[k]);
      if s.threads[t].FailSwap? { SwapMeaning(c, start, n, actions[..k], t); }
    }
  }

  /** Thread t opens the closed breaker with its next action. */
  predicate Opens(c: CB.Config, s: State, t: nat) {
    && t < |s.threads| && s.shared.state.StateClosed? && Step(c, s, t).shared.state.StateOpen?
  }

  /** It does so below the threshold. */
  predicate OpensEarly(c: CB.Config, s: State, t: nat) {
    Opens(c, s, t) && s.shared.failures < c.failureThreshold
  }

  lemma WhoOpens(c: CB.Config, s: State, t: nat)
    requires Opens(c, s, t)
    ensures s.threads[t].FailStore? || s.threads[t].FailSwap?
  {
  }

  /**
   Over every interleaving, an opening falls short exactly when too few failures were counted since the last zeroing,
   and then it is the plain store of a failure that met a half-open breaker, or a swap whose count was zeroed in
   between.
   */
  lemma EarlyOpenings(c: CB.Config, start: int, n: nat, actions: seq<Action>, t: nat, s: State)
    requires s == Reach(c, start, n, actions) && Opens(c, s, t)
    ensures s.threads[t].FailStore? || s.threads[t].FailSwap?
    ensures OpensEarly(c, s, t)
            <==> CountsSinceZero(c, start, n, actions) < c.failureThreshold
                 && (s.threads[t].FailStore? || ZeroedSinceCount(c, start, n, actions, t))
  {
    WhoOpens(c, s, t);
    FailuresMeaning(c, start, n, actions);
    if s.threads[t].FailSwap? { SwapMeaning(c, start, n, actions, t); }
  }

  // ---------- from which states an opening can fall short ----------

  function Acts(c: CB.Config, s: State, more: seq<Action>): State {
    if more == [] then s else Act(c, Acts(c, s, more[..|more| - 1]), more[|more| - 1])
  }

  lemma {:induction false} ReachActs(c: CB.Config, start: int, n: nat, actions: seq<Action>, more: seq<Action>)
    ensures Reach(c, start, n, actions + more) == Acts(c, Reach(c, start, n, actions), more)
  {
    if more == [] {
      assert actions + more == actions;
    } else {
      var k := |more| - 1;
      assert (actions + more)[..|actions + more| - 1] == actions + more[..k];
      ReachActs(c, start, n, actions, more[..k]);
    }
  }

  lemma ActsMore(c: CB.Config, s: State, more: seq<Action>, a: Action)
    ensures Acts(c, s, more + [a]) == Act(c, Acts(c, s, more), a)
  {
    assert (more + [a])[..|more|] == more;
  }

  /** After more the breaker has stayed closed, and thread t is about to open it below the threshold. */
  ghost predicate EarlyAfter(c: CB.Config, s: State, more: seq<Action>, t: nat) {
    var s' := Acts(c, s, more);
    s'.moves == s.moves && OpensEarly(c, s', t)
  }

  ghost predicate CanOpenEarly(c: CB.Config, s: State) {
    exists more, t :: EarlyAfter(c, s, more, t)
  }

  /**
   Thread t is on its way to opening a closed breaker early, or is about to take the count from under another thread.
   */
  predicate Endangers(c: CB.Config, s: State, t: nat)
    requires t < |s.threads|
  {
    match s.threads[t]
    case FailStore => s.shared.failures < c.failureThreshold
    case FailSwap => s.shared.failures < c.failureThreshold
    case FailClear => s.shared.failures + 1 < c.failureThreshold
    case FailCountHalfOpen => s.shared.failures + 1 < c.failureThreshold
    case OkZeroFailures => |s.threads| >= 2 && c.failureThreshold >= 1
    case _ => false
  }

  ghost predicate Exposed(c: CB.Config, s: State) {
    exists t: nat :: t < |s.threads| && Endangers(c, s, t)
  }

  /** While a closed breaker stays closed, danger does not arise anew. */
  lemma StaysCovered(c: CB.Config, s: State, a: Action)
    requires s.shared.state.StateClosed? && s.shared.failures >= 0 && !Exposed(c, s) && Act(c, s, a).moves == s.moves
    ensures var s' := Act(c, s, a); s'.shared.state.StateClosed? && s'.shared.failures >= 0 && !Exposed(c, s')
  {
    var s' := Act(c, s, a);
    ActCounts(c, s, a);
    assert s'.shared.state.StateClosed?;
    forall t: nat | t < |s'.threads|
      ensures !Endangers(c, s', t)
    {
      assert !Endangers(c, s, t);
      if a.Run? && a.t < |s.threads| { assert !Endangers(c, s, a.t); }
    }
  }

  lemma {:induction false} NeverEarly(c: CB.Config, s: State, more: seq<Action>, t: nat)
    requires s.shared.state.StateClosed? && s.shared.failures >= 0 && !Exposed(c, s)
    ensures !EarlyAfter(c, s, more, t)
  {
    if Acts(c, s, more).moves == s.moves {
      Covered(c, s, more);
      var s' := Acts(c, s, more);
      if Opens(c, s', t) {
        WhoOpens(c, s', t);
        assert !Endangers(c, s', t);
      }
    }
  }

  lemma {:induction false} MovesGrow(c: CB.Config, s: State, more: seq<Action>)
    ensures s.moves <= Acts(c, s, more).moves
  {
    if more != [] {
      var k := |more| - 1;
      MovesGrow(c, s, more[..k]);
      ActMoves(c, Acts(c, s, more[..k]), more[k]);
    }
  }

  lemma ActMoves(c: CB.Config, s: State, a: Action)
    ensures s.moves <= Act(c, s, a).moves
  {
  }

  lemma {:induction false} Covered(c: CB.Config, s: State, more: seq<Action>)
    requires s.shared.state.StateClosed? && s.shared.failures >= 0 && !Exposed(c, s)
             && Acts(c, s, more).moves == s.moves
    ensures var s' := Acts(c, s, more); s'.shared.state.StateClosed? && s'.shared.failures >= 0 && !Exposed(c, s')
  {
    if more != [] {
      var k := |more| - 1;
      MovesGrow(c, s, more[..k]);
      ActMoves(c, Acts(c, s, more[..k]), more[k]);
      Covered(c, s, more[..k]);
      StaysCovered(c, Acts(c, s, more[..k]), more[k]);
    }
  }

  // ---------- and how ----------

  /**
   Steps left until a thread that meets a closed breaker opens it or ends its call; an idle thread begins a failure.
   */
  function Distance(pc: Pc): nat {
    match pc
    case FailSwap => 0
    case FailStore => 0
    case FailCountClosed => 1
    case FailCountHalfOpen => 1
    case FailClear => 2
    case FailLoad => 2
    case FailStamp(_) => 3
    case FailClock => 4
    case Idle => 5
    case AllowLoad => 6
    case AllowReread => 6
    case AllowClear => 6
    case FailCountOpen => 6
    case OkLoad => 6
    case OkSwap => 6
    case OkZeroSuccesses => 6
    case OkCount => 7
    case AllowSwap => 7
    case OkZeroFailures => 7
    case AllowLastFailure(_) => 8
    case AllowClock => 9
  }

  predicate Parked(pc: Pc) {
    pc.FailSwap? || pc.FailStore?
  }

  function NextAction(s: State, u: nat): Action
    requires u < |s.threads|
  {
    if s.threads[u].Idle? then Begin(u, CallFailure) else Run(u)
  }

  /** The thread has met the breaker half-open in a failure that it has yet to store. */
  predicate Storing(pc: Pc) {
    pc.FailClear? || pc.FailCountHalfOpen? || pc.FailStore?
  }

  /** One more action of a thread that is not parked brings it nearer, and the breaker stays closed. */
  lemma ParkStep(c: CB.Config, s: State, u: nat)
    requires u < |s.threads| && s.shared.state.StateClosed? && !Parked(s.threads[u])
    ensures var s' := Act(c, s, NextAction(s, u));
            && s'.moves == s.moves && s'.shared.state.StateClosed?
            && s'.threads == s.threads[u := s'.threads[u]] && !s'.threads[u].OkZeroFailures?
            && (Storing(s'.threads[u]) <==> Storing(s.threads[u]))
            && (s.threads[u].OkZeroFailures? || s.shared.failures <= s'.shared.failures)
            && (Distance(s'.threads[u]) < Distance(s.threads[u])
                || (s.threads[u].FailCountClosed? && s.shared.failures < s'.shared.failures < c.failureThreshold))
  {
  }

  lemma {:induction false} ActsAppend(c: CB.Config, s: State, xs: seq<Action>, ys: seq<Action>)
    ensures Acts(c, s, xs + ys) == Acts(c, Acts(c, s, xs), ys)
  {
    if ys == [] {
      assert xs + ys == xs;
    } else {
      var k := |ys| - 1;
      assert (xs + ys)[..|xs + ys| - 1] == xs + ys[..k];
      ActsAppend(c, s, xs, ys[..k]);
    }
  }

  lemma ActsFirst(c: CB.Config, s: State, a: Action, more: seq<Action>)
    ensures Acts(c, s, [a] + more) == Acts(c, Act(c, s, a), more)
  {
    ActsAppend(c, s, [a], more);
    assert [a][..0] == [];
  }

  /** Nothing but thread u moved, and it stands where its next action opens the breaker. */
  ghost predicate ParkedAfter(c: CB.Config, s: State, u: nat, more: seq<Action>)
    requires u < |s.threads|
  {
    var s' := Acts(c, s, more);
    && s'.moves == s.moves && s'.shared.state.StateClosed? && |s'.threads| == |s.threads|
    && (forall t :: 0 <= t < |s.threads| && t != u ==> s'.threads[t] == s.threads[t])
    && Parked(s'.threads[u]) && (s'.threads[u].FailStore? <==> Storing(s.threads[u]))
  }

  /** Any thread can be brought to the point where it is about to open a closed breaker. */
  lemma {:induction false} Park(c: CB.Config, s: State, u: nat) returns (more: seq<Action>)
    requires u < |s.threads| && s.shared.state.StateClosed?
    ensures ParkedAfter(c, s, u, more)
    decreases if s.threads[u].OkZeroFailures? then 1 else 0,
              Max(0, c.failureThreshold - s.shared.failures), Distance(s.threads[u])
  {
    if Parked(s.threads[u]) {
      more := [];
    } else {
      var a := NextAction(s, u);
      ParkStep(c, s, u);
      var rest := Park(c, Act(c, s, a), u);
      more := [a] + rest;
      ActsFirst(c, s, a, rest);
    }
  }

  /** A parked thread opens the breaker early when the count is short. */
  lemma ParkedOpens(c: CB.Config, s: State, t: nat)
    requires t < |s.threads| && s.shared.state.StateClosed? && Parked(s.threads[t])
    ensures Opens(c, s, t)
  {
  }

  /** Another thread takes the count from under the parked one. */
  lemma ZeroThenOpen(c: CB.Config, s: State, z: nat, u: nat) returns (more: seq<Action>)
    requires z < |s.threads| && u < |s.threads| && z != u && s.threads[z].OkZeroFailures?
    requires s.shared.state.StateClosed? && c.failureThreshold >= 1
    ensures EarlyAfter(c, s, more, u) && u < |Acts(c, s, more).threads|
    ensures Acts(c, s, more).threads[u].FailStore? <==> Storing(s.threads[u])
  {
    var path := Park(c, s, u);
    var s' := Acts(c, s, path);
    more := path + [Run(z)];
    ActsMore(c, s, path, Run(z));
    ParkedOpens(c, Act(c, s', Run(z)), u);
  }

  lemma FailureGoesOn(c: CB.Config, s: State, t: nat) returns (more: seq<Action>)
    requires t < |s.threads| && s.shared.state.StateClosed? && Endangers(c, s, t) && !s.threads[t].OkZeroFailures?
    ensures EarlyAfter(c, s, more, t) && t < |Acts(c, s, more).threads|
    ensures Acts(c, s, more).threads[t].FailStore? <==> Storing(s.threads[t])
    decreases Distance(s.threads[t])
  {
    if Parked(s.threads[t]) {
      more := [];
      ParkedOpens(c, s, t);
    } else {
      ParkStep(c, s, t);
      var rest := FailureGoesOn(c, Act(c, s, Run(t)), t);
      more := [Run(t)] + rest;
      ActsFirst(c, s, Run(t), rest);
    }
  }

  /**
   A closed breaker can be opened below the threshold before it makes any other move exactly if a failure that met it
   half-open is still to be stored, or a swap is pending whose count is gone, with the count too low for it; or a
   success is about to zero the count while there is another thread.
   */
  lemma ExposedExactly(c: CB.Config, s: State)
    requires s.shared.state.StateClosed? && s.shared.failures >= 0
    ensures CanOpenEarly(c, s) <==> Exposed(c, s)
  {
    if Exposed(c, s) {
      var t: nat :| t < |s.threads| && Endangers(c, s, t);
      if s.threads[t].OkZeroFailures? {
        var u := if t == 0 then 1 else 0;
        var more := ZeroThenOpen(c, s, t, u);
        assert EarlyAfter(c, s, more, u);
      } else {
        var more := FailureGoesOn(c, s, t);
        assert EarlyAfter(c, s, more, t);
      }
    } else {
      forall more, t
        ensures !EarlyAfter(c, s, more, t)
      {
        NeverEarly(c, s, more, t);
      }
    }
  }

  // ---------- what rules it out ----------

  /** A point of a call that the law does not depend on while the breaker is closed. */
  predicate Harmless(pc: Pc) {
    !Storing(pc) && !pc.FailSwap? && !pc.FailCountOpen? && !pc.OkZeroFailures?
  }

  /**
   The sequential law, with calls in flight: a thread is about to open the breaker exactly when enough failures count.
   */
  ghost predicate Lawful(c: CB.Config, s: State) {
    && s.shared.state.StateClosed? && s.shared.failures >= 0
    && (forall t {:trigger s.threads[t]} :: 0 <= t < |s.threads| ==>
          if s.threads[t].FailSwap? then s.shared.failures >= Max(1, c.failureThreshold) else Harmless(s.threads[t]))
    && (s.shared.failures >= Max(1, c.failureThreshold) ==> exists t :: 0 <= t < |s.threads| && s.threads[t].FailSwap?)
  }

  /** How many failures the actions count. */
  function CountsIn(c: CB.Config, s: State, more: seq<Action>): nat {
    if more == [] then 0
    else
      var k := |more| - 1;
      CountsIn(c, s, more[..k]) + if Counting(Performed(Acts(c, s, more[..k]), more[k])) then 1 else 0
  }

  lemma LawfulStep(c: CB.Config, s: State, a: Action)
    requires Lawful(c, s) && Act(c, s, a).moves == s.moves
    ensures Lawful(c, Act(c, s, a))
    ensures Act(c, s, a).shared.failures == s.shared.failures + if Counting(Performed(s, a)) then 1 else 0
  {
    var s' := Act(c, s, a);
    ActCounts(c, s, a);
    if s'.shared.failures >= Max(1, c.failureThreshold) {
      if s.shared.failures >= Max(1, c.failureThreshold) {
        var t :| 0 <= t < |s.threads| && s.threads[t].FailSwap?;
        assert s'.threads[t].FailSwap?;
      } else {
        assert s'.threads[a.t].FailSwap?;
      }
    }
  }

  /**
   From a lawful state on, for as long as the breaker stays closed: the count is that of the failures counted since,
   some thread is about to open it exactly when that reaches the threshold, and nothing else opens it.
   */
  lemma {:induction false} LawHolds(c: CB.Config, s: State, more: seq<Action>)
    requires Lawful(c, s) && Acts(c, s, more).moves == s.moves
    ensures var s' := Acts(c, s, more);
            && Lawful(c, s') && s'.shared.failures == s.shared.failures + CountsIn(c, s, more)
            && (forall t :: Opens(c, s', t) ==> s'.shared.failures >= Max(1, c.failureThreshold))
            && ((exists t :: Opens(c, s', t)) <==> s'.shared.failures >= Max(1, c.failureThreshold))
  {
    if more != [] {
      var k := |more| - 1;
      MovesGrow(c, s, more[..k]);
      ActMoves(c, Acts(c, s, more[..k]), more[k]);
      LawHolds(c, s, more[..k]);
      LawfulStep(c, Acts(c, s, more[..k]), more[k]);
    }
    OpensWhenDue(c, Acts(c, s, more));
  }

  lemma OpensWhenDue(c: CB.Config, s: State)
    requires Lawful(c, s)
    ensures forall t :: Opens(c, s, t) ==> s.shared.failures >= Max(1, c.failureThreshold)
    ensures (exists t :: Opens(c, s, t)) <==> s.shared.failures >= Max(1, c.failureThreshold)
  {
    forall t | Opens(c, s, t)
      ensures s.shared.failures >= Max(1, c.failureThreshold)
    {
      WhoOpens(c, s, t);
    }
    if s.shared.failures >= Max(1, c.failureThreshold) {
      var t: nat :| t < |s.threads| && s.threads[t].FailSwap?;
      ParkedOpens(c, s, t);
    }
  }

  /** A breaker starts lawful, whatever the number of threads. */
  lemma StartsLawful(c: CB.Config, start: int, n: nat)
    ensures Lawful(c, Reach(c, start, n, []))
  {
  }

  /**
   A close leaves the breaker lawful, with a count of zero, if no other thread is in the middle of a failure or of a
   close of its own: above all if no other call overlaps it.
   */
  lemma QuietClose(c: CB.Config, s: State, u: nat)
    requires u < |s.threads| && s.threads[u].OkSwap? && s.shared.state.StateHalfOpen?
    requires forall t :: 0 <= t < |s.threads| && t != u ==> Harmless(s.threads[t])
    ensures var s' := Act(c, Act(c, s, Run(u)), Run(u));
            && Lawful(c, s') && s'.shared.failures == 0
            && s'.moves == s.moves + [Move(CB.StateHalfOpen, CB.StateClosed, OkSwap)]
  {
  }

  /**
   Over every run: once a breaker has closed with no other call in flight, and until its next move, the count is that
   of the failures counted since the close, and a thread can open the breaker next exactly when it has reached the
   threshold.
   */
  lemma LawAfterQuietClose(c: CB.Config, start: int, n: nat, actions: seq<Action>, u: nat, more: seq<Action>)
    requires var s := Reach(c, start, n, actions);
             && u < |s.threads| && s.threads[u].OkSwap? && s.shared.state.StateHalfOpen?
             && forall t :: 0 <= t < |s.threads| && t != u ==> s.threads[t].Idle?
    requires var closed := actions + [Run(u), Run(u)];
             Reach(c, start, n, closed + more).moves == Reach(c, start, n, closed).moves
    ensures var closed := Reach(c, start, n, actions + [Run(u), Run(u)]);
            var s' := Reach(c, start, n, actions + [Run(u), Run(u)] + more);
            && s'.shared.failures == CountsIn(c, closed, more)
            && ((exists t :: Opens(c, s', t)) <==> CountsIn(c, closed, more) >= Max(1, c.failureThreshold))
  {
    var s := Reach(c, start, n, actions);
    QuietClose(c, s, u);
    ReachActs(c, start, n, actions, [Run(u), Run(u)]);
    ActsMore(c, s, [Run(u)], Run(u));
    ActsMore(c, s, [], Run(u));
    assert [Run(u)] + [Run(u)] == [Run(u), Run(u)] && [] + [Run(u)] == [Run(u)];
    var closed := Reach(c, start, n, actions + [Run(u), Run(u)]);
    ReachActs(c, start, n, actions + [Run(u), Run(u)], more);
    LawHolds(c, closed, more);
  }

  // ---------- runs that break the law ----------

  function Runs(t: nat, k: nat): seq<Action> {
    if k == 0 then [] else Runs(t, k - 1) + [Run(t)]
  }

  lemma AloneOne(c: CB.Config, s: State, t: nat)
    requires t < |s.threads|
    ensures Alone(c, s, t, 1) == Act(c, s, Run(t))
  {
    assert Alone(c, s, t, 1) == Alone(c, Step(c, s, t), t, 0);
  }

  lemma {:induction false} AloneActs(c: CB.Config, s: State, t: nat, k: nat)
    requires t < |s.threads|
    ensures Acts(c, s, Runs(t, k)) == Alone(c, s, t, k)
  {
    if k > 0 {
      AloneActs(c, s, t, k - 1);
      AloneMore(c, s, t, k - 1, 1);
      AloneOne(c, Alone(c, s, t, k - 1), t);
      ActsMore(c, s, Runs(t, k - 1), Run(t));
    }
  }

  function Whole(t: nat, call: Call): seq<Action> {
    [Begin(t, call)] + Runs(t, 6)
  }

  lemma WholeCall(c: CB.Config, s: State, t: nat, call: Call)
    requires t < |s.threads| && s.threads[t].Idle?
    ensures Sequential(c, s, call, Acts(c, s, Whole(t, call)))
  {
    ActsFirst(c, s, Begin(t, call), Runs(t, 6));
    AloneActs(c, Act(c, s, Begin(t, call)), t, 6);
    AloneCall(c, s, t, call);
  }

  /** Thread 0 can begin a call. */
  predicate Ready(s: State) {
    s.threads != [] && s.threads[0].Idle?
  }

  /** Failures of one thread, one call after the other, open a closed breaker. */
  lemma {:induction false} FailUntilOpen(c: CB.Config, s: State) returns (more: seq<Action>)
    requires Ready(s) && s.shared.state.StateClosed?
    ensures var s' := Acts(c, s, more);
            s'.threads == s.threads && s'.shared.state.StateOpen? && s'.shared.lastFailure == s'.clock
    decreases Max(0, c.failureThreshold - s.shared.failures)
  {
    more := Whole(0, CallFailure);
    WholeCall(c, s, 0, CallFailure);
    var s' := Acts(c, s, more);
    if s'.shared.state.StateClosed? {
      var rest := FailUntilOpen(c, s');
      ActsAppend(c, s, more, rest);
      more := more + rest;
    }
  }

  lemma Probe(c: CB.Config, s: State) returns (more: seq<Action>)
    requires Ready(s) && s.shared.state.StateOpen? && s.shared.lastFailure == s.clock
    ensures var s' := Acts(c, s, more); s'.threads == s.threads && s'.shared.state.StateHalfOpen?
  {
    var d: nat := Max(0, c.recoveryTimeout);
    var s1 := Act(c, s, Wait(d));
    more := [Wait(d)] + Whole(0, CallAllow);
    ActsFirst(c, s, Wait(d), Whole(0, CallAllow));
    WholeCall(c, s1, 0, CallAllow);
  }

  /** Successes bring a half-open breaker to the point where one more closes it. */
  lemma {:induction false} SucceedUntilDue(c: CB.Config, s: State) returns (more: seq<Action>)
    requires Ready(s) && s.shared.state.StateHalfOpen?
    ensures var s' := Acts(c, s, more); s'.threads == s.threads && Due(c, s')
    decreases Max(0, c.successThreshold - s.shared.successes)
  {
    more := [];
    if !Due(c, s) {
      WholeCall(c, s, 0, CallSuccess);
      var rest := SucceedUntilDue(c, Acts(c, s, Whole(0, CallSuccess)));
      more := Whole(0, CallSuccess) + rest;
      ActsAppend(c, s, Whole(0, CallSuccess), rest);
    }
  }

  predicate Due(c: CB.Config, s: State) {
    s.shared.state.StateHalfOpen? && s.shared.successes + 1 >= c.successThreshold
  }

  /**
   With any configuration, thread 0 alone can bring a closed breaker to be half-open, one success short of closing.
   */
  lemma BecomesDue(c: CB.Config, s: State) returns (more: seq<Action>)
    requires Ready(s) && s.shared.state.StateClosed?
    ensures var s' := Acts(c, s, more); s'.threads == s.threads && Due(c, s')
  {
    var fail := FailUntilOpen(c, s);
    var s1 := Acts(c, s, fail);
    var probe := Probe(c, s1);
    var succeed := SucceedUntilDue(c, Acts(c, s1, probe));
    ActsAppend(c, s, fail, probe);
    ActsAppend(c, s, fail + probe, succeed);
    more := fail + probe + succeed;
  }

  /** It does so with no other call in flight. */
  lemma ReachDue(c: CB.Config, start: int, n: nat) returns (actions: seq<Action>)
    requires n >= 1
    ensures var s := Reach(c, start, n, actions);
            |s.threads| == n && Due(c, s) && forall t :: 0 <= t < n ==> s.threads[t].Idle?
  {
    actions := BecomesDue(c, Reach(c, start, n, []));
    ReachActs(c, start, n, [], actions);
    assert [] + actions == actions;
  }

  /** Thread 1 meets the breaker half-open in a failure, which thread 0 then closes. */
  lemma CloseOverFailure(c: CB.Config, s: State) returns (more: seq<Action>)
    requires Ready(s) && Due(c, s) && |s.threads| >= 2 && s.threads[1].Idle?
    ensures var s' := Acts(c, s, more);
            s'.threads == s.threads[1 := FailClear] && s'.shared.state.StateClosed? && s'.shared.failures == 0
  {
    var fail := [Begin(1, CallFailure)] + Runs(1, 3);
    var close := [Begin(0, CallSuccess)] + Runs(0, 6);
    var s1 := Acts(c, s, fail);
    assert s1 == Thrice(c, Act(c, s, Begin(1, CallFailure)), 1) by {
      ActsFirst(c, s, Begin(1, CallFailure), Runs(1, 3));
      AloneActs(c, Act(c, s, Begin(1, CallFailure)), 1, 3);
      ThreeRuns(c, Act(c, s, Begin(1, CallFailure)), 1);
    }
    FailureBegins(c, s, 1);
    assert Acts(c, s1, close) == Thrice(c, Thrice(c, Act(c, s1, Begin(0, CallSuccess)), 0), 0) by {
      ActsFirst(c, s1, Begin(0, CallSuccess), Runs(0, 6));
      AloneActs(c, Act(c, s1, Begin(0, CallSuccess)), 0, 6);
      SixSteps(c, Act(c, s1, Begin(0, CallSuccess)), 0);
    }
    SuccessCloses(c, s1, 0);
    ActsAppend(c, s, fail, close);
    more := fail + close;
  }

  /** A failure that met the breaker half-open is stored after another thread closed it. */
  lemma EarlyByStore(c: CB.Config, start: int, n: nat) returns (actions: seq<Action>)
    requires n >= 2 && c.failureThreshold >= 2
    ensures var s := Reach(c, start, n, actions);
            |s.threads| == n && OpensEarly(c, s, 1) && s.threads[1].FailStore?
  {
    var before := ReachDue(c, start, n);
    var s := Reach(c, start, n, before);
    var close := CloseOverFailure(c, s);
    var rest := FailureGoesOn(c, Acts(c, s, close), 1);
    ActsAppend(c, s, close, rest);
    ReachActs(c, start, n, before, close + rest);
    actions := before + (close + rest);
    FailuresMeaning(c, start, n, actions);
  }

  lemma ThreeRuns(c: CB.Config, s: State, t: nat)
    requires t < |s.threads|
    ensures Alone(c, s, t, 3) == Thrice(c, s, t)
  {
    AloneMore(c, s, t, 1, 2);
    AloneMore(c, Step(c, s, t), t, 1, 1);
  }

  /** A closing success zeroes the count between another thread's count and its swap. */
  lemma EarlyBySwap(c: CB.Config, start: int, n: nat) returns (actions: seq<Action>)
    requires n >= 2 && c.failureThreshold >= 1
    ensures var s := Reach(c, start, n, actions);
            |s.threads| == n && OpensEarly(c, s, 1) && s.threads[1].FailSwap?
  {
    var before := ReachDue(c, start, n);
    var s := Reach(c, start, n, before);
    var close := [Begin(0, CallSuccess)] + Runs(0, 3);
    var s1 := Acts(c, s, close);
    assert s1 == Thrice(c, Act(c, s, Begin(0, CallSuccess)), 0) by {
      ActsFirst(c, s, Begin(0, CallSuccess), Runs(0, 3));
      AloneActs(c, Act(c, s, Begin(0, CallSuccess)), 0, 3);
      ThreeRuns(c, Act(c, s, Begin(0, CallSuccess)), 0);
    }
    CloseBegins(c, s);
    var rest := ZeroThenOpen(c, s1, 0, 1);
    ActsAppend(c, s, close, rest);
    ReachActs(c, start, n, before, close + rest);
    actions := before + (close + rest);
    FailuresMeaning(c, start, n, actions);
    WhoOpens(c, Reach(c, start, n, actions), 1);
  }

  lemma CloseUnderSwap(c: CB.Config, s: State)
    requires Ready(s) && Due(c, s) && |s.threads| >= 2 && s.threads[1].FailSwap? && c.failureThreshold >= 1
    ensures var s' := Acts(c, s, Whole(0, CallSuccess));
            OpensEarly(c, s', 1) && s'.threads == s.threads && s'.shared.failures == 0
  {
    WholeCall(c, s, 0, CallSuccess);
    ParkedOpens(c, Acts(c, s, Whole(0, CallSuccess)), 1);
  }

  /**
   A swap that is delayed over an opening and a close by another thread opens the breaker again, with a count of zero.
   */
  lemma EarlyByDelay(c: CB.Config, start: int, n: nat) returns (actions: seq<Action>)
    requires n >= 2 && c.failureThreshold >= 1
    ensures var s := Reach(c, start, n, actions);
            && |s.threads| == n && OpensEarly(c, s, 1) && s.threads[1].FailSwap? && s.shared.failures == 0
            && forall t :: 0 <= t < n && t != 1 ==> s.threads[t].Idle?
  {
    var s := Reach(c, start, n, []);
    var park := Park(c, s, 1);
    var s1 := Acts(c, s, park);
    var due := BecomesDue(c, s1);
    CloseUnderSwap(c, Acts(c, s1, due));
    ActsAppend(c, s1, due, Whole(0, CallSuccess));
    ActsAppend(c, s, park, due + Whole(0, CallSuccess));
    actions := park + (due + Whole(0, CallSuccess));
    ReachActs(c, start, n, [], actions);
    assert [] + actions == actions;
  }

  lemma CloseBegins(c: CB.Config, s: State)
    requires Ready(s) && Due(c, s)
    ensures var s' := Thrice(c, Act(c, s, Begin(0, CallSuccess)), 0);
            s'.shared.state.StateClosed? && s'.threads == s.threads[0 := OkZeroFailures]
  {
  }

  /** What holds of a breaker that only one thread uses. */
  ghost predicate Single(c: CB.Config, s: State) {
    && s.shared.failures >= 0
    && forall t {:trigger s.threads[t]} :: 0 <= t < |s.threads| ==>
         && (Storing(s.threads[t]) ==> s.shared.state.StateHalfOpen?)
         && (s.threads[t].FailSwap? ==> s.shared.failures >= c.failureThreshold)
  }

  lemma SingleStep(c: CB.Config, s: State, a: Action)
    requires |s.threads| <= 1 && Single(c, s)
    ensures Single(c, Act(c, s, a))
  {
    ActCounts(c, s, a);
  }

  lemma {:induction false} AlwaysSingle(c: CB.Config, start: int, n: nat, actions: seq<Action>)
    requires n <= 1
    ensures Single(c, Reach(c, start, n, actions))
  {
    if actions != [] {
      var k := |actions| - 1;
      AlwaysSingle(c, start, n, actions[..k]);
      FailuresMeaning(c, start, n, actions[..k]);
      SingleStep(c, Reach(c, start, n, actions[..k]), actions[k]);
    }
  }

  /** Some run opens the breaker below the threshold exactly if there are two threads and the threshold is positive. */
  lemma LawBreaks(c: CB.Config, start: int, n: nat)
    ensures (exists actions: seq<Action>, t: nat :: OpensEarly(c, Reach(c, start, n, actions), t))
            <==> n >= 2 && c.failureThreshold >= 1
  {
    if n >= 2 && c.failureThreshold >= 1 {
      var actions := EarlyBySwap(c, start, n);
      assert OpensEarly(c, Reach(c, start, n, actions), 1);
    } else {
      forall actions: seq<Action>, t: nat
        ensures !OpensEarly(c, Reach(c, start, n, actions), t)
      {
        var s := Reach(c, start, n, actions);
        FailuresMeaning(c, start, n, actions);
        if n <= 1 { AlwaysSingle(c, start, n, actions); }
        if Opens(c, s, t) { WhoOpens(c, s, t); }
      }
    }
  }
}
