/**
 Single-flight groups, internal/singleflight/singleflight.go and the client's older copy of Do: the lock sections,
 result stores, releases and delayed cleanups of any number of goroutines, in any order.
 */
module SingleFlight {
  import opened Base

  /** What a function hands back. Values are opaque; None stands for nil. */
  datatype Outcome = Outcome(val: Option<int>, err: Option<string>)

  const NOTHING := Outcome(None, None)

  const IN_PROGRESS := Outcome(None, Some("ErrInProgress"))

  datatype Timer = NotSet | Pending | Fired

  /**
   One call object: outcome, finished and released are its val and err, its done flag and its wait group. The rest is
   history: the key and goroutine that created it, its cleanup timer, and whether ForgetKey took it out of the map.
   */
  datatype Call =
    Call(key: string, owner: nat, outcome: Outcome, finished: bool, released: bool, timer: Timer, forgotten: bool)

  /** The map of a group, with call objects named by their place in the order of creation. */
  datatype Calls = Calls(m: map<string, nat>, all: seq<Call>)

  // ---------- the atomic actions on the shared state ----------

  function Create(g: Calls, key: string, t: nat): Calls {
    Calls(g.m[key := |g.all|], g.all + [Call(key, t, NOTHING, false, false, NotSet, false)])
  }

  function Store(g: Calls, id: nat, outcome: Outcome): Calls
    requires id < |g.all|
  {
    g.(all := g.all[id := g.all[id].(outcome := outcome, finished := true)])
  }

  function Release(g: Calls, id: nat): Calls
    requires id < |g.all|
  {
    g.(all := g.all[id := g.all[id].(released := true)])
  }

  function SetTimer(g: Calls, id: nat): Calls
    requires id < |g.all|
  {
    g.(all := g.all[id := g.all[id].(timer := Pending)])
  }

  /**
   A group deletes the key only while it still maps to the call being cleaned up; the older copy always deletes it.
   */
  datatype Variant = Group | Legacy

  function Clean(v: Variant, g: Calls, id: nat): Calls
    requires id < |g.all|
  {
    var key := g.all[id].key;
    Calls(if v.Legacy? || (key in g.m && g.m[key] == id) then g.m - {key} else g.m,
          g.all[id := g.all[id].(timer := Fired)])
  }

  function Forget(g: Calls, key: string): Calls {
    Calls(g.m - {key},
          if key in g.m && g.m[key] < |g.all| then g.all[g.m[key] := g.all[g.m[key]].(forgotten := true)] else g.all)
  }

  /** All that the owner of a new call does before it returns, with nobody else in between. */
  function Whole(g: Calls, key: string, t: nat, outcome: Outcome): Calls {
    SetTimer(Release(Store(Create(g, key, t), |g.all|, outcome), |g.all|), |g.all|)
  }

  // ---------- the class: one method for each lock section ----------

  class CallObject {
    var val: Option<int>
    var err: Option<string>
    var done: bool
    var released: bool

    constructor ()
      ensures val == None && err == None && !done && !released
    {
      val, err, done, released := None, None, false, false;
    }

    /** The object holds what the model says of the call. */
    ghost predicate Carries(c: Call)
      reads this
    {
      val == c.outcome.val && err == c.outcome.err && done == c.finished && released == c.released
    }
  }

  class FlightGroup {
    var m: map<string, CallObject>
    ghost var created: seq<CallObject>

    ghost predicate Represents(g: Calls)
      reads this, created
    {
      && |created| == |g.all|
      && NoDuplicates(created)
      && (forall i: nat {:trigger created[i]} {:trigger g.all[i]} :: i < |created| ==> created[i].Carries(g.all[i]))
      && m.Keys == g.m.Keys
      && (forall k :: k in m ==> g.m[k] < |created| && m[k] == created[g.m[k]])
    }

    constructor ()
      ensures Represents(Calls(map[], []))
    {
      m := map[];
      created := [];
    }

    /** The lock section that begins Do and, but for what follows when owner is false, TryDo. */
    method Enter(key: string, ghost t: nat, ghost g: Calls) returns (c: CallObject, owner: bool)
      requires Represents(g)
      modifies this
      ensures owner <==> key !in g.m
      ensures Represents(if key in g.m then g else Create(g, key, t))
      ensures var id := if key in g.m then g.m[key] else |g.all|; id < |created| && c == created[id]
      ensures owner ==> fresh(c)
    {
      if key in m {
        return m[key], false;
      }
      c := new CallObject();
      m := m[key := c];
      created := created + [c];
      owner := true;
    }

    method Finish(c: CallObject, val: Option<int>, err: Option<string>, ghost id: nat, ghost g: Calls)
      requires Represents(g) && id < |created| && c == created[id]
      modifies c
      ensures Represents(Store(g, id, Outcome(val, err)))
    {
      c.val, c.err := val, err;
      c.done := true;
    }

    method Done(c: CallObject, ghost id: nat, ghost g: Calls)
      requires Represents(g) && id < |created| && c == created[id]
      modifies c
      ensures Represents(Release(g, id))
    {
      c.released := true;
    }

    /** What the cleanup timer of a Do or TryDo does. */
    method Cleanup(key: string, c: CallObject, ghost id: nat, ghost g: Calls)
      requires Represents(g) && id < |created| && c == created[id] && g.all[id].key == key
      modifies this
      ensures Represents(Clean(Group, g, id))
    {
      if key in m && m[key] == c {
        m := m - {key};
      }
    }

    /** What the cleanup timer of the client's older copy does. */
    method LegacyCleanup(key: string, ghost id: nat, ghost g: Calls)
      requires Represents(g) && id < |created| && g.all[id].key == key
      modifies this
      ensures Represents(Clean(Legacy, g, id))
    {
      m := m - {key};
    }

    /** A Do with no other goroutine about, so that no call is still running; the function would return val and err. */
    method Do(key: string, val: Option<int>, err: Option<string>, ghost t: nat, ghost g: Calls)
      returns (v: Option<int>, e: Option<string>)
      requires Represents(g)
      requires key in g.m ==> g.m[key] < |g.all| && g.all[g.m[key]].released
      modifies this
      ensures key in g.m ==> Represents(g) && Outcome(v, e) == g.all[g.m[key]].outcome
      ensures key !in g.m ==> Represents(Whole(g, key, t, Outcome(val, err))) && v == val && e == err
    {
      var c, owner := Enter(key, t, g);
      if owner {
        Finish(c, val, err, |g.all|, Create(g, key, t));
        Done(c, |g.all|, Store(Create(g, key, t), |g.all|, Outcome(val, err)));
      }
      return c.val, c.err;
    }

    /** TryDo with no other goroutine about. */
    method TryDo(key: string, val: Option<int>, err: Option<string>, ghost t: nat, ghost g: Calls)
      returns (v: Option<int>, e: Option<string>, ran: bool)
      requires Represents(g)
      modifies this
      ensures ran <==> key !in g.m
      ensures !ran ==> Represents(g) && Outcome(v, e) == IN_PROGRESS
      ensures ran ==> Represents(Whole(g, key, t, Outcome(val, err))) && v == val && e == err
    {
      var c, owner := Enter(key, t, g);
      if !owner {
        return None, Some("ErrInProgress"), false;
      }
      Finish(c, val, err, |g.all|, Create(g, key, t));
      Done(c, |g.all|, Store(Create(g, key, t), |g.all|, Outcome(val, err)));
      return c.val, c.err, true;
    }

    method ForgetKey(key: string, ghost g: Calls)
      requires Represents(g)
      modifies this
      ensures Represents(Forget(g, key))
    {
      m := m - {key};
    }
  }

  // ---------- the transition system ----------

  /** Where a goroutine stands between two atomic actions, with its local variables. */
  datatype Pc =
    | Idle
    | Executing(id: nat)                       // running the function
    | Releasing(id: nat, outcome: Outcome)     // val and err are stored
    | Scheduling(id: nat, outcome: Outcome)    // waiters are released
    | Waiting(id: nat, key: string)

  datatype Role = Owner | Waiter | Refused

  /** What goroutine t got back from a Do or TryDo on key that met call id. */
  datatype Answer = Answer(t: nat, role: Role, key: string, id: nat, outcome: Outcome)

  datatype State = State(calls: Calls, threads: seq<Pc>, answers: seq<Answer>, forgets: seq<string>)

  datatype Action =
    | Do(t: nat, key: string)
    | TryDo(t: nat, key: string)
    | Finish(t: nat, outcome: Outcome)   // the function that t executes returns
    | Run(t: nat)                        // t performs its next atomic action
    | Fire(id: nat)                      // the cleanup timer of a call fires
    | ForgetKey(key: string)

  function Goto(s: State, t: nat, pc: Pc): State
    requires t < |s.threads|
  {
    s.(threads := s.threads[t := pc])
  }

  function Reply(s: State, a: Answer): State
    requires a.t < |s.threads|
  {
    Goto(s, a.t, Idle).(answers := s.answers + [a])
  }

  function Start(s: State, t: nat, key: string): State
    requires t < |s.threads|
  {
    Goto(s, t, Executing(|s.calls.all|)).(calls := Create(s.calls, key, t))
  }

  /** Reading a call: ids in the map and in program counters always name a call, as AlwaysSound shows. */
  function CallAt(g: Calls, id: nat): Call {
    if id < |g.all| then g.all[id] else Call("", 0, NOTHING, false, false, NotSet, false)
  }

  function Step(v: Variant, s: State, t: nat): State
    requires t < |s.threads|
  {
    match s.threads[t]
    case Idle => s
    case Executing(_) => s
    case Releasing(id, outcome) =>
      if id < |s.calls.all| then Goto(s, t, Scheduling(id, outcome)).(calls := Release(s.calls, id)) else s
    case Scheduling(id, outcome) =>
      // a group returns what the call holds, the older copy its own local result
      if id < |s.calls.all| then
        var c := s.calls.all[id];
        Reply(s, Answer(t, Owner, c.key, id, if v.Group? then c.outcome else outcome)).(calls := SetTimer(s.calls, id))
      else s
    case Waiting(id, key) =>
      var c := CallAt(s.calls, id);
      if c.released then Reply(s, Answer(t, Waiter, key, id, c.outcome)) else s
  }

  function Act(v: Variant, s: State, a: Action): State {
    match a
    case Do(t, key) =>
      if t < |s.threads| && s.threads[t].Idle? then
        if key in s.calls.m then Goto(s, t, Waiting(s.calls.m[key], key)) else Start(s, t, key)
      else s
    case TryDo(t, key) =>
      if t < |s.threads| && s.threads[t].Idle? then
        if key in s.calls.m then Reply(s, Answer(t, Refused, key, s.calls.m[key], IN_PROGRESS)) else Start(s, t, key)
      else s
    case Finish(t, outcome) =>
      if t < |s.threads| && s.threads[t].Executing? && s.threads[t].id < |s.calls.all| then
        Goto(s, t, Releasing(s.threads[t].id, outcome)).(calls := Store(s.calls, s.threads[t].id, outcome))
      else s
    case Run(t) => if t < |s.threads| then Step(v, s, t) else s
    case Fire(id) => if CallAt(s.calls, id).timer.Pending? then s.(calls := Clean(v, s.calls, id)) else s
    case ForgetKey(key) => s.(calls := Forget(s.calls, key), forgets := s.forgets + [key])
  }

  /** Every interleaving of n goroutines is a sequence of actions. */
  function Reach(v: Variant, n: nat, actions: seq<Action>): State {
    if actions == [] then State(Calls(map[], []), seq(n, i => Idle), [], [])
    else Act(v, Reach(v, n, actions[..|actions| - 1]), actions[|actions| - 1])
  }

  // ---------- the invariant ----------

  ghost predicate Registered(g: Calls, id: nat)
    requires id < |g.all|
  {
    g.all[id].key in g.m && g.m[g.all[id].key] == id
  }

  function Owned(pc: Pc): Option<nat> {
    if pc.Executing? || pc.Releasing? || pc.Scheduling? then Some(pc.id) else None
  }

  /** A call is in the map exactly until its own cleanup or a ForgetKey, and its owner's until the timer is set. */
  ghost predicate CallSound(s: State, id: nat)
    requires id < |s.calls.all|
  {
    var c := s.calls.all[id];
    && (Registered(s.calls, id) <==> !c.timer.Fired? && !c.forgotten)
    && (c.released ==> c.finished)
    && c.owner < |s.threads|
    && (c.timer.NotSet? <==> Owned(s.threads[c.owner]) == Some(id))
    && (!c.finished <==> s.threads[c.owner] == Executing(id))
    && (c.forgotten ==> c.key in s.forgets)
  }

  ghost predicate ThreadSound(s: State, t: nat)
    requires t < |s.threads|
  {
    var pc := s.threads[t];
    && (!pc.Idle? ==> pc.id < |s.calls.all|)
    && (Owned(pc).Some? ==> s.calls.all[pc.id].owner == t)
    && (pc.Releasing? ==>
          s.calls.all[pc.id].outcome == pc.outcome && s.calls.all[pc.id].finished && !s.calls.all[pc.id].released)
    && (pc.Scheduling? ==> s.calls.all[pc.id].outcome == pc.outcome && s.calls.all[pc.id].released)
    && (pc.Waiting? ==> s.calls.all[pc.id].key == pc.key)
  }

  ghost predicate AnswerSound(g: Calls, a: Answer) {
    && a.id < |g.all| && g.all[a.id].key == a.key
    && if a.role.Refused? then a.outcome == IN_PROGRESS else g.all[a.id].released && a.outcome == g.all[a.id].outcome
  }

  ghost predicate MapSound(g: Calls) {
    forall k :: k in g.m ==> g.m[k] < |g.all| && g.all[g.m[k]].key == k
  }

  ghost predicate Sound(s: State) {
    && MapSound(s.calls)
    && (forall id: nat {:trigger CallSound(s, id)} :: id < |s.calls.all| ==> CallSound(s, id))
    && (forall t: nat {:trigger ThreadSound(s, t)} :: t < |s.threads| ==> ThreadSound(s, t))
    && (forall i: nat {:trigger s.answers[i]} :: i < |s.answers| ==> AnswerSound(s.calls, s.answers[i]))
  }

  lemma StartSound(s: State, t: nat, key: string)
    requires Sound(s) && t < |s.threads| && s.threads[t].Idle? && key !in s.calls.m
    ensures Sound(Start(s, t, key))
  {
    var s' := Start(s, t, key);
    forall id: nat | id < |s'.calls.all| ensures CallSound(s', id) {
      if id < |s.calls.all| { assert CallSound(s, id); }
    }
    forall u: nat | u < |s'.threads| ensures ThreadSound(s', u) { assert ThreadSound(s, u); }
    forall i: nat | i < |s'.answers| ensures AnswerSound(s'.calls, s'.answers[i]) {
      assert AnswerSound(s.calls, s.answers[i]);
    }
  }

  lemma JoinSound(s: State, t: nat, key: string)
    requires Sound(s) && t < |s.threads| && s.threads[t].Idle? && key in s.calls.m
    ensures Sound(Goto(s, t, Waiting(s.calls.m[key], key)))
  {
    var s' := Goto(s, t, Waiting(s.calls.m[key], key));
    forall id: nat | id < |s'.calls.all| ensures CallSound(s', id) { assert CallSound(s, id); }
    forall u: nat | u < |s'.threads| ensures ThreadSound(s', u) { assert ThreadSound(s, u); }
  }

  lemma ReplySound(s: State, a: Answer)
    requires Sound(s) && a.t < |s.threads| && Owned(s.threads[a.t]).None? && AnswerSound(s.calls, a)
    ensures Sound(Reply(s, a))
  {
    var s' := Reply(s, a);
    forall id: nat | id < |s'.calls.all| ensures CallSound(s', id) { assert CallSound(s, id); }
    forall u: nat | u < |s'.threads| ensures ThreadSound(s', u) { assert ThreadSound(s, u); }
  }

  /** The owner t of call id moves on to pc, leaving the call as c. */
  function Advance(s: State, t: nat, pc: Pc, id: nat, c: Call): State
    requires t < |s.threads| && id < |s.calls.all|
  {
    Goto(s, t, pc).(calls := s.calls.(all := s.calls.all[id := c]))
  }

  /** From executing over releasing and scheduling to the end, with the call as each of them needs it. */
  ghost predicate Advances(s: State, t: nat, pc: Pc, id: nat, c: Call)
    requires t < |s.threads| && id < |s.calls.all|
  {
    var was := s.calls.all[id];
    && Owned(s.threads[t]) == Some(id)
    && c.key == was.key && c.owner == was.owner && c.forgotten == was.forgotten
    && (was.finished ==> c.finished && c.outcome == was.outcome) && (was.released ==> c.released)
    && match pc
       case Releasing(i, outcome) => i == id && c.outcome == outcome && c.finished && !c.released && c.timer.NotSet?
       case Scheduling(i, outcome) => i == id && c.outcome == outcome && c.finished && c.released && c.timer.NotSet?
       case Idle => c.finished && c.released && c.timer.Pending?
       case _ => false
  }

  lemma AdvanceSound(s: State, t: nat, pc: Pc, id: nat, c: Call)
    requires Sound(s) && t < |s.threads| && id < |s.calls.all| && Advances(s, t, pc, id, c)
    ensures Sound(Advance(s, t, pc, id, c))
  {
    var s' := Advance(s, t, pc, id, c);
    assert ThreadSound(s, t);
    assert CallSound(s, id);
    forall i: nat | i < |s'.calls.all| ensures CallSound(s', i) { assert CallSound(s, i); }
    forall u: nat | u < |s'.threads| ensures ThreadSound(s', u) { assert ThreadSound(s, u); }
    forall i: nat | i < |s'.answers| ensures AnswerSound(s'.calls, s'.answers[i]) {
      assert AnswerSound(s.calls, s.answers[i]);
    }
  }

  lemma OwnerSound(s: State, a: Action)
    requires Sound(s) && (a.Finish? || a.Run?) && a.t < |s.threads| && Owned(s.threads[a.t]).Some?
    ensures Sound(Act(Group, s, a))
  {
    var t := a.t;
    var id := s.threads[t].id;
    assert ThreadSound(s, t);
    assert CallSound(s, id);
    var s' := Act(Group, s, a);
    if s' != s {
      var c := s'.calls.all[id];
      AdvanceSound(s, t, s'.threads[t], id, c);
      if s.threads[t].Scheduling? {
        ReplySound(Advance(s, t, Idle, id, c), Answer(t, Owner, c.key, id, c.outcome));
        assert s' == Reply(Advance(s, t, Idle, id, c), Answer(t, Owner, c.key, id, c.outcome));
      } else {
        assert s' == Advance(s, t, s'.threads[t], id, c);
      }
    }
  }

  /**
   A pending timer finds its own call under the key, unless the call was forgotten: both variants then do the same.
   */
  lemma CleanSame(s: State, id: nat)
    requires Sound(s) && id < |s.calls.all| && s.calls.all[id].timer.Pending? && !s.calls.all[id].forgotten
    ensures Clean(Legacy, s.calls, id) == Clean(Group, s.calls, id)
  {
    assert CallSound(s, id);
  }

  lemma FireSound(s: State, id0: nat)
    requires Sound(s) && id0 < |s.calls.all| && s.calls.all[id0].timer.Pending?
    ensures Sound(Act(Group, s, Fire(id0)))
  {
    var s' := Act(Group, s, Fire(id0));
    assert CallSound(s, id0);
    forall id: nat | id < |s'.calls.all| ensures CallSound(s', id) { assert CallSound(s, id); }
    forall u: nat | u < |s'.threads| ensures ThreadSound(s', u) { assert ThreadSound(s, u); }
    forall i: nat | i < |s'.answers| ensures AnswerSound(s'.calls, s'.answers[i]) {
      assert AnswerSound(s.calls, s.answers[i]);
    }
  }

  lemma ForgetSound(s: State, key: string)
    requires Sound(s)
    ensures Sound(Act(Group, s, ForgetKey(key)))
  {
    var s' := Act(Group, s, ForgetKey(key));
    assert key in s'.forgets;
    forall id: nat | id < |s'.calls.all| ensures CallSound(s', id) { assert CallSound(s, id); }
    forall u: nat | u < |s'.threads| ensures ThreadSound(s', u) { assert ThreadSound(s, u); }
    forall i: nat | i < |s'.answers| ensures AnswerSound(s'.calls, s'.answers[i]) {
      assert AnswerSound(s.calls, s.answers[i]);
    }
  }

  predicate NoForgets(actions: seq<Action>) {
    forall i :: 0 <= i < |actions| ==> !actions[i].ForgetKey?
  }

  /** While no key was forgotten, both variants take the same step. */
  lemma VariantsAgree(s: State, a: Action)
    requires Sound(s) && s.forgets == [] && !a.ForgetKey?
    ensures Act(Legacy, s, a) == Act(Group, s, a)
  {
    match a
    case Fire(id) =>
      if CallAt(s.calls, id).timer.Pending? {
        assert CallSound(s, id);
        CleanSame(s, id);
      }
    case Run(t) => if t < |s.threads| { assert ThreadSound(s, t); }
    case Do(_, _) =>
    case TryDo(_, _) =>
    case Finish(_, _) =>
  }

  lemma ActSound(s: State, a: Action)
    requires Sound(s)
    ensures Sound(Act(Group, s, a))
  {
    match a
    case Do(t, key) =>
      if t < |s.threads| && s.threads[t].Idle? {
        if key in s.calls.m { JoinSound(s, t, key); } else { StartSound(s, t, key); }
      }
    case TryDo(t, key) =>
      if t < |s.threads| && s.threads[t].Idle? {
        if key in s.calls.m { ReplySound(s, Answer(t, Refused, key, s.calls.m[key], IN_PROGRESS)); }
        else { StartSound(s, t, key); }
      }
    case Finish(t, outcome) => if t < |s.threads| && s.threads[t].Executing? { OwnerSound(s, a); }
    case Run(t) =>
      if t < |s.threads| {
        if Owned(s.threads[t]).Some? { OwnerSound(s, a); }
        else if s.threads[t].Waiting? && CallAt(s.calls, s.threads[t].id).released {
          assert ThreadSound(s, t);
          ReplySound(s, Answer(t, Waiter, s.threads[t].key, s.threads[t].id, s.calls.all[s.threads[t].id].outcome));
        }
      }
    case Fire(id) => if CallAt(s.calls, id).timer.Pending? { FireSound(s, id); }
    case ForgetKey(key) => ForgetSound(s, key);
  }

  /**
   Over every interleaving, a call is registered exactly until its own cleanup or a ForgetKey, has one owner, who runs
   its function once, and every answer is the outcome of the call it names. The older copy needs that nobody forgets
   keys.
   */
  lemma {:induction false} AlwaysSound(n: nat, actions: seq<Action>)
    ensures Sound(Reach(Group, n, actions))
  {
    if actions != [] {
      AlwaysSound(n, actions[..|actions| - 1]);
      ActSound(Reach(Group, n, actions[..|actions| - 1]), actions[|actions| - 1]);
    }
  }

  /** Without ForgetKey the client's older copy, which deletes without looking, behaves exactly as the group. */
  lemma {:induction false} LegacyIsGroup(n: nat, actions: seq<Action>)
    requires NoForgets(actions)
    ensures Reach(Legacy, n, actions) == Reach(Group, n, actions)
    ensures Reach(Group, n, actions).forgets == []
  {
    if actions != [] {
      var before := actions[..|actions| - 1];
      LegacyIsGroup(n, before);
      AlwaysSound(n, before);
      VariantsAgree(Reach(Group, n, before), actions[|actions| - 1]);
    }
  }

  /** A Do starts a call exactly when every earlier call on the key has been cleaned up or forgotten. */
  lemma StartsWhenClear(n: nat, actions: seq<Action>, t: nat, key: string)
    requires var s := Reach(Group, n, actions); t < |s.threads| && s.threads[t].Idle?
    ensures var s := Reach(Group, n, actions);
            var s' := Act(Group, s, Do(t, key));
            s'.threads[t] == Executing(|s.calls.all|) && |s'.calls.all| == |s.calls.all| + 1
            <==> forall id :: 0 <= id < |s.calls.all| && s.calls.all[id].key == key ==>
                   s.calls.all[id].timer.Fired? || s.calls.all[id].forgotten
  {
    AlwaysSound(n, actions);
    var s := Reach(Group, n, actions);
    if key in s.calls.m {
      assert CallSound(s, s.calls.m[key]);
    } else {
      forall id | 0 <= id < |s.calls.all| && s.calls.all[id].key == key
        ensures s.calls.all[id].timer.Fired? || s.calls.all[id].forgotten
      {
        assert CallSound(s, id);
      }
    }
  }

  /**
   A TryDo never waits: it is refused at once exactly while some call on the key is neither cleaned up nor forgotten,
   and otherwise runs a new one.
   */
  lemma TryDoAnswers(n: nat, actions: seq<Action>, t: nat, key: string)
    requires var s := Reach(Group, n, actions); t < |s.threads| && s.threads[t].Idle?
    ensures var s := Reach(Group, n, actions);
            var s' := Act(Group, s, TryDo(t, key));
            if exists id :: 0 <= id < |s.calls.all| && s.calls.all[id].key == key && Busy(s.calls.all[id]) then
              && s'.calls == s.calls && s'.threads == s.threads && |s'.answers| == |s.answers| + 1
              && s'.answers[..|s.answers|] == s.answers
              && var a := s'.answers[|s.answers|];
                 a.t == t && a.role.Refused? && a.key == key && a.outcome == Outcome(None, Some("ErrInProgress"))
            else
              && s'.answers == s.answers && |s'.calls.all| == |s.calls.all| + 1
              && s'.threads == s.threads[t := Executing(|s.calls.all|)] && Registered(s'.calls, |s.calls.all|)
  {
    AlwaysSound(n, actions);
    var s := Reach(Group, n, actions);
    if key in s.calls.m {
      assert CallSound(s, s.calls.m[key]);
    } else {
      forall id | 0 <= id < |s.calls.all| && s.calls.all[id].key == key
        ensures !Busy(s.calls.all[id])
      {
        assert CallSound(s, id);
      }
    }
  }

  predicate Busy(c: Call) {
    !c.timer.Fired? && !c.forgotten
  }

  lemma FireKeeps(s: State, id: nat, other: nat)
    requires other < |s.calls.all| && other != id && Registered(s.calls, other)
    ensures var g' := Act(Group, s, Fire(id)).calls; other < |g'.all| && Registered(g', other)
  {
  }

  /**
   A cleanup leaves every other call registered: no timer ever removes a younger call. The older copy, which does not
   look at what it deletes, needs that nobody forgets keys.
   */
  lemma CleansOnlyItsOwn(v: Variant, n: nat, actions: seq<Action>, id: nat, other: nat)
    requires v.Group? || NoForgets(actions)
    requires var g := Reach(v, n, actions).calls; other < |g.all| && other != id && Registered(g, other)
    ensures var g' := Act(v, Reach(v, n, actions), Fire(id)).calls; other < |g'.all| && Registered(g', other)
  {
    var s := Reach(v, n, actions);
    if v.Legacy? {
      LegacyIsGroup(n, actions);
      AlwaysSound(n, actions);
      VariantsAgree(s, Fire(id));
    }
    FireKeeps(s, id, other);
  }

  /** With ForgetKey the older copy's cleanup would not do: it removes a younger call that the group's cleanup keeps. */
  lemma ForgettingNeedsTheCheck(s: State, id: nat, younger: nat)
    requires Sound(s) && id < |s.calls.all| && s.calls.all[id].timer.Pending?
    requires younger < |s.calls.all| && younger != id && Registered(s.calls, younger)
    requires s.calls.all[younger].key == s.calls.all[id].key
    ensures s.calls.all[id].forgotten
    ensures Registered(Act(Group, s, Fire(id)).calls, younger) && !Registered(Act(Legacy, s, Fire(id)).calls, younger)
  {
    assert CallSound(s, id);
  }

  /** Call 0 was answered and waits for its cleanup, and a younger call on its key is running. */
  ghost predicate Overlapping(s: State, key: string) {
    && |s.calls.all| == 2 && s.calls.all[0].timer.Pending? && s.calls.all[0].key == s.calls.all[1].key == key
    && |s.threads| >= 2 && s.threads[1] == Executing(1) && Registered(s.calls, 1)
  }

  /** Two goroutines reach such a state, in either variant; of the two, only the older copy's cleanup drops the call. */
  lemma OverlapReached(v: Variant, n: nat, key: string, outcome: Outcome) returns (actions: seq<Action>)
    requires n >= 2
    ensures var s := Reach(v, n, actions);
            Overlapping(s, key) && (Registered(Act(v, s, Fire(0)).calls, 1) <==> v.Group?)
  {
    actions := Answered(v, n, key, outcome);
    var s := Reach(v, n, actions);
    ReachMore(v, n, actions, ForgetKey(key));
    ReachMore(v, n, actions + [ForgetKey(key)], Do(1, key));
    actions := actions + [ForgetKey(key)] + [Do(1, key)];
    var s' := Reach(v, n, actions);
    assert s' == Act(v, Act(v, s, ForgetKey(key)), Do(1, key));
  }

  /** A call has run to its end, but for its cleanup. */
  lemma Answered(v: Variant, n: nat, key: string, outcome: Outcome) returns (actions: seq<Action>)
    requires n >= 2
    ensures var s := Reach(v, n, actions);
            && s.calls == Calls(map[key := 0], [Call(key, 0, outcome, true, true, Pending, false)])
            && |s.threads| == n && s.threads[1].Idle?
  {
    ReachMore(v, n, [], Do(0, key));
    actions := [] + [Do(0, key)];
    var s := Reach(v, n, actions);
    assert s.calls == Calls(map[key := 0], [Call(key, 0, NOTHING, false, false, NotSet, false)]);
    ReachMore(v, n, actions, Finish(0, outcome));
    actions := actions + [Finish(0, outcome)];
    ReachMore(v, n, actions, Run(0));
    actions := actions + [Run(0)];
    s := Reach(v, n, actions);
    assert s.calls == Calls(map[key := 0], [Call(key, 0, outcome, true, true, NotSet, false)]);
    ReachMore(v, n, actions, Run(0));
    actions := actions + [Run(0)];
  }

  // ---------- how many functions run at once ----------

  /** How many calls on key have a function that has not returned; each has an owner executing it. */
  function Running(all: seq<Call>, key: string): nat {
    if all == [] then 0
    else
      var last := all[|all| - 1];
      Running(all[..|all| - 1], key) + if last.key == key && !last.finished then 1 else 0
  }

  function Forgotten(all: seq<Call>, key: string): nat {
    if all == [] then 0
    else
      var last := all[|all| - 1];
      Forgotten(all[..|all| - 1], key) + if last.key == key && last.forgotten then 1 else 0
  }

  lemma {:induction false} ForgottenUpdate(all: seq<Call>, id: nat, c: Call, key: string)
    requires id < |all| && c.key == all[id].key
    ensures Forgotten(all[id := c], key)
            == Forgotten(all, key) + (if c.key == key && c.forgotten then 1 else 0)
               - if c.key == key && all[id].forgotten then 1 else 0
  {
    var k := |all| - 1;
    if id == k {
      assert all[id := c][..k] == all[..k];
    } else {
      assert all[id := c][..k] == all[..k][id := c];
      ForgottenUpdate(all[..k], id, c, key);
    }
  }

  lemma ForgottenAppend(all: seq<Call>, c: Call, key: string)
    requires !c.forgotten
    ensures Forgotten(all + [c], key) == Forgotten(all, key)
  {
    assert (all + [c])[..|all|] == all;
  }

  ghost predicate ForgetsPaidFor(s: State, key: string) {
    Forgotten(s.calls.all, key) <= multiset(s.forgets)[key]
  }

  lemma StepPaid(s: State, t: nat, key: string)
    requires Sound(s) && ForgetsPaidFor(s, key) && t < |s.threads|
    ensures ForgetsPaidFor(Step(Group, s, t), key)
  {
    if s.threads[t].Releasing? || s.threads[t].Scheduling? {
      assert ThreadSound(s, t);
      var id := s.threads[t].id;
      ForgottenUpdate(s.calls.all, id, Step(Group, s, t).calls.all[id], key);
    }
  }

  lemma ActPaid(s: State, a: Action, key: string)
    requires Sound(s) && ForgetsPaidFor(s, key)
    ensures ForgetsPaidFor(Act(Group, s, a), key)
  {
    var s' := Act(Group, s, a);
    var all := s.calls.all;
    match a
    case Do(t, k) => if |s'.calls.all| > |all| { ForgottenAppend(all, s'.calls.all[|all|], key); }
    case TryDo(t, k) => if |s'.calls.all| > |all| { ForgottenAppend(all, s'.calls.all[|all|], key); }
    case Finish(t, outcome) =>
      if t < |s.threads| && s.threads[t].Executing? {
        assert ThreadSound(s, t);
        ForgottenUpdate(all, s.threads[t].id, s'.calls.all[s.threads[t].id], key);
      }
    case Run(t) => if t < |s.threads| { StepPaid(s, t, key); }
    case Fire(id) => if id < |all| { ForgottenUpdate(all, id, all[id].(timer := Fired), key); }
    case ForgetKey(k) =>
      if k in s.calls.m {
        ForgottenUpdate(all, s.calls.m[k], all[s.calls.m[k]].(forgotten := true), key);
      }
  }

  lemma {:induction false} AlwaysPaid(n: nat, actions: seq<Action>, key: string)
    ensures ForgetsPaidFor(Reach(Group, n, actions), key)
  {
    if actions != [] {
      AlwaysPaid(n, actions[..|actions| - 1], key);
      AlwaysSound(n, actions[..|actions| - 1]);
      ActPaid(Reach(Group, n, actions[..|actions| - 1]), actions[|actions| - 1], key);
    }
  }

  lemma {:induction false} RunningAtMost(all: seq<Call>, key: string, only: nat)
    requires forall id :: 0 <= id < |all| && all[id].key == key && !all[id].finished && !all[id].forgotten ==>
               id == only
    ensures Running(all, key) <= Forgotten(all, key) + if only < |all| then 1 else 0
  {
    if all != [] {
      var k := |all| - 1;
      assert forall id :: 0 <= id < k ==> all[..k][id] == all[id];
      RunningAtMost(all[..k], key, only);
    }
  }

  /** At most one function per key runs at once, and one more for each ForgetKey on the key so far. */
  lemma OneAtATime(n: nat, actions: seq<Action>, key: string)
    ensures var s := Reach(Group, n, actions); Running(s.calls.all, key) <= 1 + multiset(s.forgets)[key]
  {
    AlwaysSound(n, actions);
    AlwaysPaid(n, actions, key);
    var s := Reach(Group, n, actions);
    var only := if key in s.calls.m then s.calls.m[key] else |s.calls.all|;
    var all := s.calls.all;
    forall id | 0 <= id < |all| && all[id].key == key && !all[id].finished && !all[id].forgotten
      ensures id == only
    {
      assert CallSound(s, id);
    }
    RunningAtMost(s.calls.all, key, only);
  }

  lemma {:induction false} RunningUpdate(all: seq<Call>, id: nat, c: Call, key: string)
    requires id < |all| && c.key == all[id].key && c.finished == all[id].finished
    ensures Running(all[id := c], key) == Running(all, key)
  {
    var k := |all| - 1;
    if id == k {
      assert all[id := c][..k] == all[..k];
    } else {
      assert all[id := c][..k] == all[..k][id := c];
      RunningUpdate(all[..k], id, c, key);
    }
  }

  lemma RunningAppend(all: seq<Call>, c: Call, key: string)
    requires c.key == key && !c.finished
    ensures Running(all + [c], key) == Running(all, key) + 1
  {
    assert (all + [c])[..|all|] == all;
  }

  /** The first count goroutines each run a function on key, and the others are idle. */
  ghost predicate Crowded(s: State, n: nat, key: string, count: nat) {
    && MapSound(s.calls) && |s.threads| == n
    && Running(s.calls.all, key) == count && (count > 0 ==> key in s.calls.m)
    && (forall t :: 0 <= t < count <= n ==> s.threads[t].Executing?)
    && forall t :: count <= t < n ==> s.threads[t].Idle?
  }

  lemma CrowdedForget(s: State, n: nat, key: string, count: nat, f: State)
    requires Crowded(s, n, key, count) && f == Act(Group, s, ForgetKey(key))
    ensures MapSound(f.calls) && Running(f.calls.all, key) == count
    ensures f.threads == s.threads && key !in f.calls.m && f.forgets == s.forgets + [key]
  {
    if key in s.calls.m {
      var id := s.calls.m[key];
      RunningUpdate(s.calls.all, id, f.calls.all[id], key);
    }
  }

  lemma CrowdedMore(s: State, n: nat, key: string, count: nat, f: State, s': State)
    requires Crowded(s, n, key, count) && count < n
    requires f == Act(Group, s, ForgetKey(key)) && s' == Act(Group, f, Do(count, key))
    ensures Crowded(s', n, key, count + 1) && s'.forgets == s.forgets + [key]
  {
    CrowdedForget(s, n, key, count, f);
    assert s' == Start(f, count, key);
    RunningAppend(f.calls.all, Call(key, count, NOTHING, false, false, NotSet, false), key);
  }

  /** That bound is reached: by n goroutines, with n - 1 calls of ForgetKey in between. */
  lemma {:induction false} BoundReached(n: nat, key: string, forgets: nat) returns (actions: seq<Action>)
    requires forgets < n
    ensures var s := Reach(Group, n, actions);
            && Crowded(s, n, key, forgets + 1) && Running(s.calls.all, key) == 1 + multiset(s.forgets)[key]
            && multiset(s.forgets)[key] == forgets
    decreases forgets
  {
    if forgets == 0 {
      actions := [] + [Do(0, key)];
      ReachMore(Group, n, [], Do(0, key));
      RunningAppend([], Call(key, 0, NOTHING, false, false, NotSet, false), key);
      assert [] + [Call(key, 0, NOTHING, false, false, NotSet, false)]
             == [Call(key, 0, NOTHING, false, false, NotSet, false)];
    } else {
      var before := BoundReached(n, key, forgets - 1);
      actions := before + [ForgetKey(key)] + [Do(forgets, key)];
      ReachMore(Group, n, before, ForgetKey(key));
      ReachMore(Group, n, before + [ForgetKey(key)], Do(forgets, key));
      CrowdedMore(Reach(Group, n, before), n, key, forgets, Reach(Group, n, before + [ForgetKey(key)]),
                  Reach(Group, n, actions));
    }
  }

  // ---------- calls come to an end ----------

  /**
   A goroutine that waits is answered by its next action with the call's outcome once the call is released, and until
   then that action does nothing.
   */
  lemma WaiterAnswered(n: nat, actions: seq<Action>, t: nat)
    requires var s := Reach(Group, n, actions); t < |s.threads| && s.threads[t].Waiting?
    ensures var s := Reach(Group, n, actions);
            var s', id := Act(Group, s, Run(t)), s.threads[t].id;
            && id < |s.calls.all|
            && if s.calls.all[id].released then
                 && s'.threads == s.threads[t := Idle] && s'.calls == s.calls
                 && s'.answers == s.answers + [Answer(t, Waiter, s.calls.all[id].key, id, s.calls.all[id].outcome)]
               else s' == s
  {
    AlwaysSound(n, actions);
    assert ThreadSound(Reach(Group, n, actions), t);
  }

  /** The owner's function returns and the owner takes its two remaining actions. */
  function Return(s: State, t: nat, outcome: Outcome): State {
    Act(Group, Act(Group, Act(Group, s, Finish(t, outcome)), Run(t)), Run(t))
  }

  /**
   When its function returns, the owner stores the outcome, releases the call, sets the timer and returns with the
   outcome itself; when the timer then fires, the call is not registered any more.
   */
  lemma OwnerReturns(n: nat, actions: seq<Action>, t: nat, outcome: Outcome)
    requires var s := Reach(Group, n, actions); t < |s.threads| && s.threads[t].Executing?
    ensures var s := Reach(Group, n, actions);
            var s', id := Return(s, t, outcome), s.threads[t].id;
            && id < |s.calls.all| == |s'.calls.all|
            && s'.threads == s.threads[t := Idle]
            && s'.calls.all[id]
               == s.calls.all[id].(outcome := outcome, finished := true, released := true, timer := Pending)
            && s'.answers == s.answers + [Answer(t, Owner, s.calls.all[id].key, id, outcome)]
            && s'.calls.m == s.calls.m
            && var g := Act(Group, s', Fire(id)).calls;
               |g.all| == |s.calls.all| && !Registered(g, id) && g.all[id].timer.Fired?
  {
    AlwaysSound(n, actions);
    assert ThreadSound(Reach(Group, n, actions), t);
  }

  // ---------- what waiters get ----------

  /** The function of call id has returned outcome, and the call holds it. */
  ghost predicate Holds(g: Calls, id: nat, key: string, outcome: Outcome) {
    id < |g.all| && g.all[id].key == key && g.all[id].finished && g.all[id].outcome == outcome
  }

  lemma OutcomeKept(s: State, a: Action, id: nat, key: string, outcome: Outcome)
    requires Sound(s) && Holds(s.calls, id, key, outcome)
    ensures Holds(Act(Group, s, a).calls, id, key, outcome)
  {
    if a.Finish? && a.t < |s.threads| && s.threads[a.t].Executing? {
      assert ThreadSound(s, a.t);
      assert CallSound(s, s.threads[a.t].id);
    }
  }

  lemma {:induction false} OutcomeStays(n: nat, path: seq<Action>, id: nat, key: string, outcome: Outcome,
                                        more: seq<Action>)
    requires Holds(Reach(Group, n, path).calls, id, key, outcome)
    ensures Holds(Reach(Group, n, path + more).calls, id, key, outcome)
  {
    if more == [] {
      assert path + more == path;
    } else {
      var before := path + more[..|more| - 1];
      OutcomeStays(n, path, id, key, outcome, more[..|more| - 1]);
      AlwaysSound(n, before);
      OutcomeKept(Reach(Group, n, before), more[|more| - 1], id, key, outcome);
      assert path + more == before + [more[|more| - 1]];
      ReachMore(Group, n, before, more[|more| - 1]);
    }
  }

  /** What the owner's function returned is the outcome of its call from then on. */
  lemma Settled(n: nat, actions: seq<Action>, t: nat, outcome: Outcome, more: seq<Action>)
    requires var s := Reach(Group, n, actions); t < |s.threads| && s.threads[t].Executing?
    ensures var s := Reach(Group, n, actions);
            var id := s.threads[t].id;
            && id < |s.calls.all|
            && Holds(Reach(Group, n, actions + [Finish(t, outcome)] + more).calls, id, s.calls.all[id].key, outcome)
  {
    var s := Reach(Group, n, actions);
    AlwaysSound(n, actions);
    assert ThreadSound(s, t);
    ReachMore(Group, n, actions, Finish(t, outcome));
    OutcomeStays(n, actions + [Finish(t, outcome)], s.threads[t].id, s.calls.all[s.threads[t].id].key, outcome, more);
  }

  /** Goroutine t has been answered with the outcome of call id, at or after place from of the log. */
  ghost predicate Served(s: State, t: nat, key: string, id: nat, start: nat) {
    && id < |s.calls.all| && s.calls.all[id].finished
    && exists i :: start <= i < |s.answers| && s.answers[i] == Answer(t, Waiter, key, id, s.calls.all[id].outcome)
  }

  lemma JoinedStep(s: State, a: Action, t: nat, key: string, id: nat, start: nat)
    requires Sound(s) && Joined(s, t, key, id, start)
    ensures Joined(Act(Group, s, a), t, key, id, start)
  {
    var s' := Act(Group, s, a);
    if Served(s, t, key, id, start) {
      OutcomeKept(s, a, id, s.calls.all[id].key, s.calls.all[id].outcome);
      var i :| start <= i < |s.answers| && s.answers[i] == Answer(t, Waiter, key, id, s.calls.all[id].outcome);
      assert s'.answers[i] == s.answers[i];
    } else if s'.threads[t] != s.threads[t] {
      assert ThreadSound(s, t);
      assert CallSound(s, id);
      assert s'.answers[|s.answers|] == Answer(t, Waiter, key, id, s'.calls.all[id].outcome);
    }
  }

  /** What is true of a goroutine that joined call id when the log of answers had length start. */
  ghost predicate Joined(s: State, t: nat, key: string, id: nat, start: nat) {
    && t < |s.threads| && start <= |s.answers|
    && (s.threads[t] == Waiting(id, key) || Served(s, t, key, id, start))
  }

  lemma {:induction false} StaysJoined(n: nat, path: seq<Action>, t: nat, key: string, id: nat, start: nat,
                                       more: seq<Action>)
    requires Joined(Reach(Group, n, path), t, key, id, start)
    ensures Joined(Reach(Group, n, path + more), t, key, id, start)
  {
    if more == [] {
      assert path + more == path;
    } else {
      var before := path + more[..|more| - 1];
      StaysJoined(n, path, t, key, id, start, more[..|more| - 1]);
      AlwaysSound(n, before);
      JoinedStep(Reach(Group, n, before), more[|more| - 1], t, key, id, start);
      assert path + more == before + [more[|more| - 1]];
      ReachMore(Group, n, before, more[|more| - 1]);
    }
  }

  lemma ReachMore(v: Variant, n: nat, actions: seq<Action>, a: Action)
    ensures Reach(v, n, actions + [a]) == Act(v, Reach(v, n, actions), a)
  {
    assert (actions + [a])[..|actions|] == actions;
  }

  /**
   A Do that joins waits for the call it found in the map and is answered with that call's outcome, whatever happens to
   the key in between: the call may be cleaned up or forgotten and a younger one started.
   */
  lemma JoinerGetsItsCall(n: nat, actions: seq<Action>, t: nat, key: string, more: seq<Action>)
    requires var s := Reach(Group, n, actions); t < |s.threads| && s.threads[t].Idle? && key in s.calls.m
    ensures var s := Reach(Group, n, actions);
            Joined(Reach(Group, n, actions + [Do(t, key)] + more), t, key, s.calls.m[key], |s.answers|)
  {
    var s := Reach(Group, n, actions);
    ReachMore(Group, n, actions, Do(t, key));
    StaysJoined(n, actions + [Do(t, key)], t, key, s.calls.m[key], |s.answers|, more);
  }
}
