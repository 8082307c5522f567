/**
 The in-flight request tracker, deduplication.go: joining or creating an entry, completing it by key, the delayed
 unconditional delete, and waiting with a context that may be cancelled, by any number of goroutines in any order.
 Owners act as Client.Do does: they consult the cache first, and complete their entry once unless the cache answers.
 */
module Deduplication {
  import opened Base

  /** A response and an error, both opaque; None stands for nil. */
  datatype Outcome = Outcome(response: Option<int>, err: Option<string>)

  const NOTHING := Outcome(None, None)

  /** How far the owner and the timer of an entry have come. */
  datatype Stage = Working | Completing | Closed | Pending | Fired | Abandoned

  /** One entry object; closed says whether its done channel is closed. key, owner and stage are history. */
  datatype Entry = Entry(key: string, owner: nat, outcome: Outcome, closed: bool, waiters: nat, stage: Stage)

  /** The map of the tracker, with entries named by their place in the order of creation. */
  datatype Entries = Entries(m: map<string, nat>, all: seq<Entry>)

  // ---------- the atomic actions on the shared state ----------

  function Create(d: Entries, key: string, t: nat): Entries {
    Entries(d.m[key := |d.all|], d.all + [Entry(key, t, NOTHING, false, 1, Working)])
  }

  function Join(d: Entries, id: nat): Entries
    requires id < |d.all|
  {
    d.(all := d.all[id := d.all[id].(waiters := d.all[id].waiters + 1)])
  }

  /** Storing the outcome and closing the channel. */
  function Close(d: Entries, id: nat, outcome: Outcome): Entries
    requires id < |d.all|
  {
    d.(all := d.all[id := d.all[id].(outcome := outcome, closed := true, stage := Closed)])
  }

  function Mark(d: Entries, id: nat, stage: Stage): Entries
    requires id < |d.all|
  {
    d.(all := d.all[id := d.all[id].(stage := stage)])
  }

  /** What the timer of an entry does: it deletes the key without looking. */
  function Expire(d: Entries, id: nat): Entries
    requires id < |d.all|
  {
    Entries(d.m - {d.all[id].key}, Mark(d, id, Fired).all)
  }

  // ---------- the classes ----------

  class DeduplicationEntry {
    var response: Option<int>
    var err: Option<string>
    var done: bool
    var waiters: nat

    constructor ()
      ensures response == None && err == None && !done && waiters == 1
    {
      response, err, done, waiters := None, None, false, 1;
    }

    ghost predicate Carries(e: Entry)
      reads this
    {
      response == e.outcome.response && err == e.outcome.err && done == e.closed && waiters == e.waiters
    }

    /** What the select answers once the channel is closed or the context is done. */
    method Wait(cancelled: Option<string>) returns (r: Option<int>, e: Option<string>)
      requires done || cancelled.Some?
      ensures (r, e) == (response, err) || (cancelled.Some? && (r, e) == (None, cancelled))
      ensures cancelled.None? ==> (r, e) == (response, err)
      ensures !done ==> (r, e) == (None, cancelled)
    {
      if {
        case done => return response, err;
        case cancelled.Some? => return None, cancelled;
      }
    }
  }

  class DeduplicationTracker {
    var entries: map<string, DeduplicationEntry>
    ghost var created: seq<DeduplicationEntry>

    ghost predicate Represents(d: Entries)
      reads this, created
    {
      && |created| == |d.all|
      && NoDuplicates(created)
      && (forall i: nat {:trigger created[i]} {:trigger d.all[i]} :: i < |created| ==> created[i].Carries(d.all[i]))
      && entries.Keys == d.m.Keys
      && (forall k :: k in entries ==> d.m[k] < |created| && entries[k] == created[d.m[k]])
    }

    constructor ()
      ensures Represents(Entries(map[], []))
    {
      entries := map[];
      created := [];
    }

    method GetOrCreateEntry(key: string, ghost t: nat, ghost d: Entries) returns (e: DeduplicationEntry, owner: bool)
      requires Represents(d)
      modifies this, created
      ensures owner <==> key !in d.m
      ensures if key in d.m then d.m[key] < |created| && e == created[d.m[key]] && Represents(Join(d, d.m[key]))
              else fresh(e) && Represents(Create(d, key, t)) && e == created[|d.all|]
    {
      if key in entries {
        e := entries[key];
        e.waiters := e.waiters + 1;
        return e, false;
      }
      e := new DeduplicationEntry();
      entries := entries[key := e];
      created := created + [e];
      owner := true;
    }

    /**
     Complete up to setting its timer. Closing a closed channel panics, which is why the caller must not let it
     happen.
     */
    method Complete(key: string, response: Option<int>, err: Option<string>, ghost d: Entries) returns (found: bool)
      requires Represents(d) && (key in d.m ==> d.m[key] < |d.all| && !d.all[d.m[key]].closed)
      modifies created
      ensures found <==> key in d.m
      ensures Represents(if key in d.m then Close(d, d.m[key], Outcome(response, err)) else d)
    {
      if key !in entries {
        return false;
      }
      var e := entries[key];
      e.response, e.err := response, err;
      e.done := true;
      found := true;
    }

    /** What the timer does. */
    method Delete(key: string, ghost id: nat, ghost d: Entries)
      requires Represents(d) && id < |d.all| && d.all[id].key == key
      modifies this
      ensures Represents(Expire(d, id))
    {
      entries := entries - {key};
    }
  }

  // ---------- when Client.Do answers from the cache ----------

  datatype CacheMode = TTLOnly | HTTPSemantics | SWR

  /**
   What Client.Do goes by before it sends a request: its configuration, the cache condition, and what a lookup finds.
   */
  datatype Lookup =
    Lookup(hasCache: bool, hasProvider: bool, eligible: bool, mode: CacheMode, providerHit: bool, cacheHit: bool)

  datatype Exit = FromProvider | Revalidated | FromCache

  /** The return that Client.Do takes before it sends anything, if it takes one; none of them completes the entry. */
  function EarlyExit(q: Lookup): Option<Exit> {
    var cacheEnabled := (q.hasCache || q.hasProvider) && q.eligible;
    if !cacheEnabled then None
    else if q.hasProvider && (q.mode.HTTPSemantics? || q.mode.SWR?) then
      if q.providerHit then Some(FromProvider) else None
    else if q.hasCache && q.cacheHit then
      Some(if q.mode.HTTPSemantics? then Revalidated else FromCache)
    else None
  }

  /** When each return is taken: on a hit of the provider, or else, where the provider is not asked, of the cache. */
  lemma EarlyExitMeaning(q: Lookup)
    ensures EarlyExit(q) == Some(FromProvider)
            <==> q.eligible && q.hasProvider && !q.mode.TTLOnly? && q.providerHit
    ensures EarlyExit(q) == Some(Revalidated)
            <==> q.eligible && q.hasCache && q.cacheHit && q.mode.HTTPSemantics? && !q.hasProvider
    ensures EarlyExit(q) == Some(FromCache)
            <==> && q.eligible && q.hasCache && q.cacheHit
                 && (q.mode.TTLOnly? || (q.mode.SWR? && !q.hasProvider))
  {
  }

  // ---------- the transition system ----------

  /** Where a goroutine stands between two atomic actions, with its local variables. */
  datatype Pc =
    | Idle
    | Owning(id: nat, key: string)                      // about to consult the cache
    | Performing(id: nat, key: string)                  // sending the request
    | Looking(id: nat, key: string, outcome: Outcome)   // in Complete, entry id looked up
    | Setting(id: nat, key: string)                     // in Complete, the channel is closed
    | Waiting(id: nat, key: string)
    | Panicked(id: nat)                                 // closed a closed channel

  /** What a joiner got back; the error of a cancelled context is its own. */
  datatype Answer = Answer(t: nat, key: string, id: nat, cancelled: bool, outcome: Outcome)

  datatype State = State(entries: Entries, threads: seq<Pc>, answers: seq<Answer>, joins: seq<nat>)

  datatype Action =
    | Begin(t: nat, key: string)             // GetOrCreateEntry
    | CompleteWith(t: nat, outcome: Outcome) // an owner calls Complete, which looks up its key
    | Consult(t: nat, q: Lookup)             // an owner consults the cache, which may answer in its place
    | Run(t: nat)                            // t performs its next atomic action
    | Cancel(t: nat, err: string)            // the context of a waiting goroutine is done, and select takes that case
    | Fire(id: nat)                          // the timer of an entry fires

  function Goto(s: State, t: nat, pc: Pc): State
    requires t < |s.threads|
  {
    s.(threads := s.threads[t := pc])
  }

  function EntryAt(d: Entries, id: nat): Entry {
    if id < |d.all| then d.all[id] else Entry("", 0, NOTHING, false, 0, Abandoned)
  }

  function Reply(s: State, a: Answer): State
    requires a.t < |s.threads|
  {
    Goto(s, a.t, Idle).(answers := s.answers + [a])
  }

  function Step(s: State, t: nat): State
    requires t < |s.threads|
  {
    match s.threads[t]
    case Looking(id, key, outcome) =>
      if id >= |s.entries.all| then s
      else if s.entries.all[id].closed then Goto(s, t, Panicked(id))
      else Goto(s, t, Setting(id, key)).(entries := Close(s.entries, id, outcome))
    case Setting(id, key) =>
      if id < |s.entries.all| then Goto(s, t, Idle).(entries := Mark(s.entries, id, Pending)) else s
    case Waiting(id, key) =>
      if EntryAt(s.entries, id).closed then Reply(s, Answer(t, key, id, false, s.entries.all[id].outcome)) else s
    case _ => s
  }

  function Act(s: State, a: Action): State {
    match a
    case Begin(t, key) =>
      if t < |s.threads| && s.threads[t].Idle? then
        if key !in s.entries.m then
          Goto(s, t, Owning(|s.entries.all|, key)).(entries := Create(s.entries, key, t))
        else if s.entries.m[key] < |s.entries.all| then
          var id := s.entries.m[key];
          Goto(s, t, Waiting(id, key)).(entries := Join(s.entries, id), joins := s.joins + [id])
        else s
      else s
    case CompleteWith(t, outcome) =>
      if t < |s.threads| && s.threads[t].Performing? then
        var key := s.threads[t].key;
        if key !in s.entries.m then Goto(s, t, Idle)   // Complete returns at once
        else if s.entries.m[key] < |s.entries.all| then
          var id := s.entries.m[key];
          Goto(s, t, Looking(id, key, outcome)).(entries := Mark(s.entries, id, Completing))
        else s
      else s
    case Consult(t, q) =>
      if t < |s.threads| && s.threads[t].Owning? && s.threads[t].id < |s.entries.all| then
        if EarlyExit(q).Some? then Goto(s, t, Idle).(entries := Mark(s.entries, s.threads[t].id, Abandoned))
        else Goto(s, t, Performing(s.threads[t].id, s.threads[t].key))
      else s
    case Run(t) => if t < |s.threads| then Step(s, t) else s
    case Cancel(t, err) =>
      if t < |s.threads| && s.threads[t].Waiting? then
        Reply(s, Answer(t, s.threads[t].key, s.threads[t].id, true, Outcome(None, Some(err))))
      else s
    case Fire(id) => if EntryAt(s.entries, id).stage.Pending? then s.(entries := Expire(s.entries, id)) else s
  }

  /** Every interleaving of n goroutines is a sequence of actions. */
  function Reach(n: nat, actions: seq<Action>): State {
    if actions == [] then State(Entries(map[], []), seq(n, i => Idle), [], [])
    else Act(Reach(n, actions[..|actions| - 1]), actions[|actions| - 1])
  }

  // ---------- the invariant ----------

  ghost predicate Registered(d: Entries, id: nat)
    requires id < |d.all|
  {
    d.all[id].key in d.m && d.m[d.all[id].key] == id
  }

  /** The entry an owner is responsible for, and the stage that must then be in. */
  function Owned(pc: Pc): Option<(nat, Stage)> {
    match pc
    case Owning(id, _) => Some((id, Working))
    case Performing(id, _) => Some((id, Working))
    case Looking(id, _, _) => Some((id, Completing))
    case Setting(id, _) => Some((id, Closed))
    case _ => None
  }

  predicate Live(stage: Stage) {
    stage.Working? || stage.Completing? || stage.Closed?
  }

  /** An entry is in the map until its own timer fires, is closed once, by its one owner, and counts its joiners. */
  ghost predicate EntrySound(s: State, id: nat)
    requires id < |s.entries.all|
  {
    var e := s.entries.all[id];
    && (Registered(s.entries, id) <==> !e.stage.Fired?)
    && (e.closed <==> e.stage.Closed? || e.stage.Pending? || e.stage.Fired?)
    && e.owner < |s.threads|
    && (Live(e.stage) <==> Owned(s.threads[e.owner]) == Some((id, e.stage)))
    && e.waiters == 1 + multiset(s.joins)[id]
  }

  ghost predicate ThreadSound(s: State, t: nat)
    requires t < |s.threads|
  {
    var pc := s.threads[t];
    && !pc.Panicked?
    && (!pc.Idle? ==> pc.id < |s.entries.all| && s.entries.all[pc.id].key == pc.key)
    && (Owned(pc).Some? ==> s.entries.all[pc.id].owner == t && s.entries.all[pc.id].stage == Owned(pc).value.1)
  }

  ghost predicate AnswerSound(d: Entries, a: Answer) {
    && a.id < |d.all| && d.all[a.id].key == a.key
    && (!a.cancelled ==> d.all[a.id].closed && a.outcome == d.all[a.id].outcome)
  }

  ghost predicate MapSound(d: Entries) {
    forall k :: k in d.m ==> d.m[k] < |d.all| && d.all[d.m[k]].key == k
  }

  ghost predicate Sound(s: State) {
    && MapSound(s.entries)
    && (forall id: nat {:trigger EntrySound(s, id)} :: id < |s.entries.all| ==> EntrySound(s, id))
    && (forall t: nat {:trigger ThreadSound(s, t)} :: t < |s.threads| ==> ThreadSound(s, t))
    && (forall i: nat {:trigger s.answers[i]} :: i < |s.answers| ==> AnswerSound(s.entries, s.answers[i]))
    && (forall j: nat {:trigger s.joins[j]} :: j < |s.joins| ==> s.joins[j] < |s.entries.all|)
  }

  lemma CreateSound(s: State, t: nat, key: string)
    requires Sound(s) && t < |s.threads| && s.threads[t].Idle? && key !in s.entries.m
    ensures Sound(Act(s, Begin(t, key)))
  {
    var s' := Act(s, Begin(t, key));
    var last := |s.entries.all|;
    assert last !in s.joins;
    forall id: nat | id < |s'.entries.all| ensures EntrySound(s', id) {
      if id < last { assert EntrySound(s, id); }
    }
    forall u: nat | u < |s'.threads| ensures ThreadSound(s', u) { assert ThreadSound(s, u); }
    forall i: nat | i < |s'.answers| ensures AnswerSound(s'.entries, s'.answers[i]) {
      assert AnswerSound(s.entries, s.answers[i]);
    }
  }

  lemma JoinSound(s: State, t: nat, key: string)
    requires Sound(s) && t < |s.threads| && s.threads[t].Idle? && key in s.entries.m
    ensures Sound(Act(s, Begin(t, key)))
  {
    var s' := Act(s, Begin(t, key));
    forall id: nat | id < |s'.entries.all| ensures EntrySound(s', id) { assert EntrySound(s, id); }
    forall u: nat | u < |s'.threads| ensures ThreadSound(s', u) { assert ThreadSound(s, u); }
    forall i: nat | i < |s'.answers| ensures AnswerSound(s'.entries, s'.answers[i]) {
      assert AnswerSound(s.entries, s.answers[i]);
    }
  }

  lemma ReplySound(s: State, a: Answer)
    requires Sound(s) && a.t < |s.threads| && Owned(s.threads[a.t]).None? && AnswerSound(s.entries, a)
    ensures Sound(Reply(s, a))
  {
    var s' := Reply(s, a);
    forall id: nat | id < |s'.entries.all| ensures EntrySound(s', id) { assert EntrySound(s, id); }
    forall u: nat | u < |s'.threads| ensures ThreadSound(s', u) { assert ThreadSound(s, u); }
  }

  /** The owner t of entry id moves on to pc, leaving the entry as e. */
  function Advance(s: State, t: nat, pc: Pc, id: nat, e: Entry): State
    requires t < |s.threads| && id < |s.entries.all|
  {
    Goto(s, t, pc).(entries := s.entries.(all := s.entries.all[id := e]))
  }

  ghost predicate Advances(s: State, t: nat, pc: Pc, id: nat, e: Entry)
    requires t < |s.threads| && id < |s.entries.all|
  {
    var was := s.entries.all[id];
    && Owned(s.threads[t]) == Some((id, was.stage)) && Live(was.stage)
    && e.key == was.key && e.owner == was.owner && e.waiters == was.waiters && !e.stage.Fired?
    && (e.closed <==> e.stage.Closed? || e.stage.Pending?)
    && (was.closed ==> e.closed && e.outcome == was.outcome)
    && (if Live(e.stage) then
          !pc.Idle? && !pc.Panicked? && pc.key == e.key && Owned(pc) == Some((id, e.stage))
        else pc.Idle?)
  }

  lemma AdvanceSound(s: State, t: nat, pc: Pc, id: nat, e: Entry)
    requires Sound(s) && t < |s.threads| && id < |s.entries.all| && Advances(s, t, pc, id, e)
    ensures Sound(Advance(s, t, pc, id, e))
  {
    var s' := Advance(s, t, pc, id, e);
    assert ThreadSound(s, t);
    assert EntrySound(s, id);
    forall i: nat | i < |s'.entries.all| ensures EntrySound(s', i) { assert EntrySound(s, i); }
    forall u: nat | u < |s'.threads| ensures ThreadSound(s', u) { assert ThreadSound(s, u); }
    forall i: nat | i < |s'.answers| ensures AnswerSound(s'.entries, s'.answers[i]) {
      assert AnswerSound(s.entries, s.answers[i]);
    }
  }

  lemma FireSound(s: State, id: nat)
    requires Sound(s) && id < |s.entries.all| && s.entries.all[id].stage.Pending?
    ensures Sound(Act(s, Fire(id)))
  {
    var s' := Act(s, Fire(id));
    assert EntrySound(s, id);
    forall i: nat | i < |s'.entries.all| ensures EntrySound(s', i) { assert EntrySound(s, i); }
    forall u: nat | u < |s'.threads| ensures ThreadSound(s', u) { assert ThreadSound(s, u); }
    forall i: nat | i < |s'.answers| ensures AnswerSound(s'.entries, s'.answers[i]) {
      assert AnswerSound(s.entries, s.answers[i]);
    }
  }

  /** An owner that calls Complete finds its own entry, still open. */
  lemma OwnerFindsItsEntry(s: State, t: nat)
    requires Sound(s) && t < |s.threads| && Owned(s.threads[t]).Some?
    ensures var pc := s.threads[t];
            && pc.id < |s.entries.all| && pc.key in s.entries.m && s.entries.m[pc.key] == pc.id
            && (pc.Owning? || pc.Performing? || pc.Looking? ==> !s.entries.all[pc.id].closed)
            && s.entries.all[pc.id].key == pc.key
  {
    assert ThreadSound(s, t);
    assert EntrySound(s, s.threads[t].id);
  }

  lemma OwnerSound(s: State, a: Action)
    requires Sound(s) && (a.CompleteWith? || a.Consult? || a.Run?)
    requires a.t < |s.threads| && Owned(s.threads[a.t]).Some?
    ensures Sound(Act(s, a))
  {
    var t := a.t;
    var id := s.threads[t].id;
    OwnerFindsItsEntry(s, t);
    assert ThreadSound(s, t);
    assert EntrySound(s, id);
    var s' := Act(s, a);
    if s' != s {
      AdvanceSound(s, t, s'.threads[t], id, s'.entries.all[id]);
      assert s' == Advance(s, t, s'.threads[t], id, s'.entries.all[id]);
    }
  }

  lemma ActSound(s: State, a: Action)
    requires Sound(s)
    ensures Sound(Act(s, a))
  {
    match a
    case Begin(t, key) =>
      if t < |s.threads| && s.threads[t].Idle? {
        if key in s.entries.m { JoinSound(s, t, key); } else { CreateSound(s, t, key); }
      }
    case CompleteWith(t, _) => if t < |s.threads| && s.threads[t].Performing? { OwnerSound(s, a); }
    case Consult(t, _) => if t < |s.threads| && s.threads[t].Owning? { OwnerSound(s, a); }
    case Run(t) =>
      if t < |s.threads| {
        if Owned(s.threads[t]).Some? { OwnerSound(s, a); }
        else if s.threads[t].Waiting? && EntryAt(s.entries, s.threads[t].id).closed {
          assert ThreadSound(s, t);
          ReplySound(s, Answer(t, s.threads[t].key, s.threads[t].id, false, s.entries.all[s.threads[t].id].outcome));
        }
      }
    case Cancel(t, err) =>
      if t < |s.threads| && s.threads[t].Waiting? {
        assert ThreadSound(s, t);
        ReplySound(s, Answer(t, s.threads[t].key, s.threads[t].id, true, Outcome(None, Some(err))));
      }
    case Fire(id) => if EntryAt(s.entries, id).stage.Pending? { FireSound(s, id); }
  }

  /**
   Over every interleaving in which owners complete at most once: an entry is registered until its own timer, no
   channel is closed twice, waiters counts the owner and all joiners, and every answer that is not a cancellation is
   the entry's outcome.
   */
  lemma {:induction false} AlwaysSound(n: nat, actions: seq<Action>)
    ensures Sound(Reach(n, actions))
  {
    if actions != [] {
      AlwaysSound(n, actions[..|actions| - 1]);
      ActSound(Reach(n, actions[..|actions| - 1]), actions[|actions| - 1]);
    }
  }

  lemma ReachMore(n: nat, actions: seq<Action>, a: Action)
    ensures Reach(n, actions + [a]) == Act(Reach(n, actions), a)
  {
  }

  /** The unconditional delete is safe: a timer finds its own entry under the key and leaves every other registered. */
  lemma DeletesOnlyItsOwn(n: nat, actions: seq<Action>, id: nat, other: nat)
    requires var d := Reach(n, actions).entries; other < |d.all| && other != id && Registered(d, other)
    ensures var d' := Act(Reach(n, actions), Fire(id)).entries; other < |d'.all| && Registered(d', other)
    ensures var d := Reach(n, actions).entries;
            id < |d.all| && d.all[id].stage.Pending? ==> Registered(d, id)
  {
    AlwaysSound(n, actions);
    if id < |Reach(n, actions).entries.all| { assert EntrySound(Reach(n, actions), id); }
  }

  /** A caller becomes owner exactly when the timers of all earlier entries on its key have fired. */
  lemma OwnsWhenClear(n: nat, actions: seq<Action>, t: nat, key: string)
    requires var s := Reach(n, actions); t < |s.threads| && s.threads[t].Idle?
    ensures var s := Reach(n, actions);
            Act(s, Begin(t, key)).threads[t] == Owning(|s.entries.all|, key)
            <==> forall id :: 0 <= id < |s.entries.all| && s.entries.all[id].key == key ==>
                   s.entries.all[id].stage.Fired?
  {
    AlwaysSound(n, actions);
    var s := Reach(n, actions);
    if key in s.entries.m {
      assert EntrySound(s, s.entries.m[key]);
    } else {
      forall id | 0 <= id < |s.entries.all| && s.entries.all[id].key == key
        ensures s.entries.all[id].stage.Fired?
      {
        assert EntrySound(s, id);
      }
    }
  }

  // ---------- what joiners get ----------

  /** Goroutine t is about to close entry id with outcome, or the entry is closed and holds outcome. */
  ghost predicate Completed(s: State, t: nat, id: nat, key: string, outcome: Outcome) {
    && t < |s.threads| && id < |s.entries.all|
    && (s.threads[t] == Looking(id, key, outcome) || (s.entries.all[id].closed && s.entries.all[id].outcome == outcome))
  }

  lemma ClosedStays(s: State, a: Action, id: nat)
    requires Sound(s) && id < |s.entries.all| && s.entries.all[id].closed
    ensures var all := Act(s, a).entries.all;
            id < |all| && all[id].closed && all[id].outcome == s.entries.all[id].outcome
  {
    if (a.CompleteWith? || a.Run?) && a.t < |s.threads| && Owned(s.threads[a.t]).Some? { OwnerFindsItsEntry(s, a.t); }
  }

  lemma CompletedStep(s: State, a: Action, t: nat, id: nat, key: string, outcome: Outcome)
    requires Sound(s) && Completed(s, t, id, key, outcome)
    ensures Completed(Act(s, a), t, id, key, outcome)
  {
    if s.entries.all[id].closed && s.entries.all[id].outcome == outcome {
      ClosedStays(s, a, id);
    } else {
      OwnerFindsItsEntry(s, t);
    }
  }

  lemma {:induction false} StaysCompleted(n: nat, path: seq<Action>, t: nat, id: nat, key: string, outcome: Outcome,
                                          more: seq<Action>)
    requires Completed(Reach(n, path), t, id, key, outcome)
    ensures Completed(Reach(n, path + more), t, id, key, outcome)
  {
    if more == [] {
      assert path + more == path;
    } else {
      var before := path + more[..|more| - 1];
      StaysCompleted(n, path, t, id, key, outcome, more[..|more| - 1]);
      AlwaysSound(n, before);
      CompletedStep(Reach(n, before), more[|more| - 1], t, id, key, outcome);
      assert path + more == before + [more[|more| - 1]];
      ReachMore(n, before, more[|more| - 1]);
    }
  }

  /** An owner's Complete, which names only the key, completes the owner's own entry, and for good. */
  lemma CompletesItsOwn(n: nat, actions: seq<Action>, t: nat, outcome: Outcome, more: seq<Action>)
    requires var s := Reach(n, actions); t < |s.threads| && s.threads[t].Performing?
    ensures var pc := Reach(n, actions).threads[t];
            Completed(Reach(n, actions + [CompleteWith(t, outcome)] + more), t, pc.id, pc.key, outcome)
  {
    var s := Reach(n, actions);
    AlwaysSound(n, actions);
    OwnerFindsItsEntry(s, t);
    ReachMore(n, actions, CompleteWith(t, outcome));
    StaysCompleted(n, actions + [CompleteWith(t, outcome)], t, s.threads[t].id, s.threads[t].key, outcome, more);
  }

  /**
   Goroutine t waits for entry id, or was answered at or after place start of the log: with its outcome, or cancelled.
   */
  ghost predicate Joined(s: State, t: nat, key: string, id: nat, start: nat) {
    && t < |s.threads| && start <= |s.answers| && id < |s.entries.all|
    && (s.threads[t] == Waiting(id, key)
        || exists i :: start <= i < |s.answers| && Answers(s, s.answers[i], t, key, id))
  }

  ghost predicate Answers(s: State, a: Answer, t: nat, key: string, id: nat)
    requires id < |s.entries.all|
  {
    && a.t == t && a.key == key && a.id == id
    && (!a.cancelled ==> s.entries.all[id].closed && a.outcome == s.entries.all[id].outcome)
  }

  lemma JoinedStep(s: State, a: Action, t: nat, key: string, id: nat, start: nat)
    requires Sound(s) && Joined(s, t, key, id, start)
    ensures Joined(Act(s, a), t, key, id, start)
  {
    var s' := Act(s, a);
    if s.threads[t] == Waiting(id, key) {
      if s'.threads[t] != s.threads[t] { assert Answers(s', s'.answers[|s.answers|], t, key, id); }
    } else {
      var i :| start <= i < |s.answers| && Answers(s, s.answers[i], t, key, id);
      if s.entries.all[id].closed { ClosedStays(s, a, id); }
      assert Answers(s', s'.answers[i], t, key, id);
    }
  }

  lemma {:induction false} StaysJoined(n: nat, path: seq<Action>, t: nat, key: string, id: nat, start: nat,
                                       more: seq<Action>)
    requires Joined(Reach(n, path), t, key, id, start)
    ensures Joined(Reach(n, path + more), t, key, id, start)
  {
    if more == [] {
      assert path + more == path;
    } else {
      var before := path + more[..|more| - 1];
      StaysJoined(n, path, t, key, id, start, more[..|more| - 1]);
      AlwaysSound(n, before);
      JoinedStep(Reach(n, before), more[|more| - 1], t, key, id, start);
      assert path + more == before + [more[|more| - 1]];
      ReachMore(n, before, more[|more| - 1]);
    }
  }

  /** A caller that joins is answered by the entry it joined and no other, unless its context is cancelled. */
  lemma JoinerGetsItsEntry(n: nat, actions: seq<Action>, t: nat, key: string, more: seq<Action>)
    requires var s := Reach(n, actions); t < |s.threads| && s.threads[t].Idle? && key in s.entries.m
    ensures var s := Reach(n, actions);
            Joined(Reach(n, actions + [Begin(t, key)] + more), t, key, s.entries.m[key], |s.answers|)
  {
    var s := Reach(n, actions);
    AlwaysSound(n, actions);
    ReachMore(n, actions, Begin(t, key));
    StaysJoined(n, actions + [Begin(t, key)], t, key, s.entries.m[key], |s.answers|, more);
  }

  /**
   A joiner is answered by its next action with the entry's outcome once the entry is closed, and until then that action
   does nothing; a cancellation answers it at once with its own context's error.
   */
  lemma JoinerAnswered(n: nat, actions: seq<Action>, t: nat, err: string)
    requires var s := Reach(n, actions); t < |s.threads| && s.threads[t].Waiting?
    ensures var s := Reach(n, actions);
            var s', id, key := Act(s, Run(t)), s.threads[t].id, s.threads[t].key;
            && id < |s.entries.all| && s.entries.all[id].key == key
            && (if s.entries.all[id].closed then
                  && s'.threads == s.threads[t := Idle] && s'.entries == s.entries
                  && s'.answers == s.answers + [Answer(t, key, id, false, s.entries.all[id].outcome)]
                else s' == s)
            && Act(s, Cancel(t, err))
               == s.(threads := s.threads[t := Idle],
                     answers := s.answers + [Answer(t, key, id, true, Outcome(None, Some(err)))])
  {
    AlwaysSound(n, actions);
    assert ThreadSound(Reach(n, actions), t);
  }

  /** The owner calls Complete and takes its two remaining actions. */
  function Return(s: State, t: nat, outcome: Outcome): State {
    Act(Act(Act(s, CompleteWith(t, outcome)), Run(t)), Run(t))
  }

  /**
   When it completes, the owner stores the outcome, closes the channel, sets the timer and is done; when the timer then
   fires, the key is not registered any more.
   */
  lemma OwnerReturns(n: nat, actions: seq<Action>, t: nat, outcome: Outcome)
    requires var s := Reach(n, actions); t < |s.threads| && s.threads[t].Performing?
    ensures var s := Reach(n, actions);
            var s', id, key := Return(s, t, outcome), s.threads[t].id, s.threads[t].key;
            && id < |s.entries.all| == |s'.entries.all|
            && s'.threads == s.threads[t := Idle] && s'.answers == s.answers && s'.entries.m == s.entries.m
            && s'.entries.all[id] == s.entries.all[id].(outcome := outcome, closed := true, stage := Pending)
            && var d := Act(s', Fire(id)).entries;
               |d.all| == |s.entries.all| && key !in d.m && d.all[id].stage.Fired?
  {
    AlwaysSound(n, actions);
    var s := Reach(n, actions);
    OwnerFindsItsEntry(s, t);
    ReturnOpen(s, t, outcome, s.threads[t].id, s.threads[t].key);
  }

  lemma ReturnOpen(s: State, t: nat, outcome: Outcome, id: nat, key: string)
    requires t < |s.threads| && s.threads[t] == Performing(id, key) && id < |s.entries.all|
    requires key in s.entries.m && s.entries.m[key] == id && !s.entries.all[id].closed && s.entries.all[id].key == key
    ensures Return(s, t, outcome)
            == s.(threads := s.threads[t := Idle],
                  entries := s.entries.(all := s.entries.all[id :=
                    s.entries.all[id].(outcome := outcome, closed := true, stage := Pending)]))
  {
    var s1 := Act(s, CompleteWith(t, outcome));
    assert s1 == Goto(s, t, Looking(id, key, outcome)).(entries := Mark(s.entries, id, Completing));
    var s2 := Act(s1, Run(t));
    assert s2 == Goto(s, t, Setting(id, key)).(entries := Close(s.entries, id, outcome));
  }

  // ---------- owners that never complete ----------

  ghost predicate Stuck(s: State, id: nat) {
    && id < |s.entries.all| && s.entries.all[id].stage.Abandoned?
    && Registered(s.entries, id) && !s.entries.all[id].closed
  }

  lemma StuckStep(s: State, a: Action, id: nat)
    requires Sound(s) && Stuck(s, id)
    ensures Stuck(Act(s, a), id)
  {
    assert EntrySound(s, id);
    if (a.CompleteWith? || a.Run? || a.Consult?) && a.t < |s.threads| && Owned(s.threads[a.t]).Some? {
      OwnerFindsItsEntry(s, a.t);
      assert ThreadSound(s, a.t);
    }
    if a.Fire? && a.id < |s.entries.all| { assert EntrySound(s, a.id); }
  }

  lemma ReachLast(n: nat, path: seq<Action>, more: seq<Action>)
    requires more != []
    ensures var k := |more| - 1; Reach(n, path + more) == Act(Reach(n, path + more[..k]), more[k])
  {
    var k := |more| - 1;
    assert path + more == path + more[..k] + [more[k]];
    ReachMore(n, path + more[..k], more[k]);
  }

  lemma {:induction false} StaysStuck(n: nat, path: seq<Action>, id: nat, more: seq<Action>)
    requires Stuck(Reach(n, path), id)
    ensures Stuck(Reach(n, path + more), id)
  {
    if more == [] {
      assert path + more == path;
    } else {
      var k := |more| - 1;
      StaysStuck(n, path, id, more[..k]);
      AlwaysSound(n, path + more[..k]);
      StuckStep(Reach(n, path + more[..k]), more[k], id);
      ReachLast(n, path, more);
    }
  }

  lemma Abandons(n: nat, actions: seq<Action>, t: nat, q: Lookup)
    requires var s := Reach(n, actions); t < |s.threads| && s.threads[t].Owning?
    ensures var id := Reach(n, actions).threads[t].id;
            var s' := Reach(n, actions + [Consult(t, q)]);
            if EarlyExit(q).Some? then Stuck(s', id)
            else
              && id < |s'.entries.all| && t < |s'.threads|
              && s'.threads[t] == Performing(id, Reach(n, actions).threads[t].key)
  {
    var s := Reach(n, actions);
    AlwaysSound(n, actions);
    OwnerFindsItsEntry(s, t);
    assert ThreadSound(s, t);
    ReachMore(n, actions, Consult(t, q));
  }

  /**
   An owner that is answered from the cache leaves its entry registered and open for good: every later caller on the key
   joins it, and none is ever answered except by its own cancellation.
   */
  lemma AbandonedForever(n: nat, actions: seq<Action>, t: nat, q: Lookup, more: seq<Action>)
    requires var s := Reach(n, actions); t < |s.threads| && s.threads[t].Owning?
    requires EarlyExit(q).Some?
    ensures var id := Reach(n, actions).threads[t].id;
            var s' := Reach(n, actions + [Consult(t, q)] + more);
            && Stuck(s', id)
            && forall i :: 0 <= i < |s'.answers| && s'.answers[i].id == id ==> s'.answers[i].cancelled
  {
    Abandons(n, actions, t, q);
    StaysStuck(n, actions + [Consult(t, q)], Reach(n, actions).threads[t].id, more);
    AlwaysSound(n, actions + [Consult(t, q)] + more);
  }

  // ---------- which entries can still be closed ----------

  ghost predicate ClosedAfter(n: nat, path: seq<Action>, id: nat) {
    var all := Reach(n, path).entries.all; id < |all| && all[id].closed
  }

  ghost predicate CanClose(n: nat, actions: seq<Action>, id: nat) {
    exists more :: ClosedAfter(n, actions + more, id)
  }

  const MISSED := Lookup(false, false, false, TTLOnly, false, false)

  lemma CanCloseBefore(n: nat, actions: seq<Action>, a: Action, id: nat)
    requires CanClose(n, actions + [a], id)
    ensures CanClose(n, actions, id)
  {
    var more :| ClosedAfter(n, actions + [a] + more, id);
    assert actions + [a] + more == actions + ([a] + more);
    assert ClosedAfter(n, actions + ([a] + more), id);
  }

  /** An owner's next action, a cache lookup that finds nothing or a Complete with any outcome, and what it leads to. */
  lemma OwnerGoesOn(s: State, t: nat)
    requires Sound(s) && t < |s.threads|
    ensures s.threads[t].Owning? ==>
              Act(s, Consult(t, MISSED)).threads == s.threads[t := Performing(s.threads[t].id, s.threads[t].key)]
    ensures s.threads[t].Performing? ==>
              Act(s, CompleteWith(t, NOTHING)).threads
                  == s.threads[t := Looking(s.threads[t].id, s.threads[t].key, NOTHING)]
    ensures s.threads[t].Looking? ==>
              s.threads[t].id < |Act(s, Run(t)).entries.all| && Act(s, Run(t)).entries.all[s.threads[t].id].closed
  {
    if Owned(s.threads[t]).Some? {
      OwnerFindsItsEntry(s, t);
      assert ThreadSound(s, t);
    }
  }

  lemma LookingCloses(n: nat, actions: seq<Action>, t: nat)
    requires var s := Reach(n, actions); t < |s.threads| && s.threads[t].Looking?
    ensures CanClose(n, actions, Reach(n, actions).threads[t].id)
  {
    AlwaysSound(n, actions);
    OwnerGoesOn(Reach(n, actions), t);
    ReachMore(n, actions, Run(t));
    assert ClosedAfter(n, actions + [Run(t)], Reach(n, actions).threads[t].id);
  }

  lemma PerformingCloses(n: nat, actions: seq<Action>, t: nat)
    requires var s := Reach(n, actions); t < |s.threads| && s.threads[t].Performing?
    ensures CanClose(n, actions, Reach(n, actions).threads[t].id)
  {
    AlwaysSound(n, actions);
    OwnerGoesOn(Reach(n, actions), t);
    ReachMore(n, actions, CompleteWith(t, NOTHING));
    LookingCloses(n, actions + [CompleteWith(t, NOTHING)], t);
    CanCloseBefore(n, actions, CompleteWith(t, NOTHING), Reach(n, actions).threads[t].id);
  }

  lemma OwningCloses(n: nat, actions: seq<Action>, t: nat)
    requires var s := Reach(n, actions); t < |s.threads| && s.threads[t].Owning?
    ensures CanClose(n, actions, Reach(n, actions).threads[t].id)
  {
    AlwaysSound(n, actions);
    OwnerGoesOn(Reach(n, actions), t);
    ReachMore(n, actions, Consult(t, MISSED));
    PerformingCloses(n, actions + [Consult(t, MISSED)], t);
    CanCloseBefore(n, actions, Consult(t, MISSED), Reach(n, actions).threads[t].id);
  }

  /** In every reachable state an entry is closed or can still be, unless its owner abandoned it. */
  lemma ClosableUnlessAbandoned(n: nat, actions: seq<Action>, id: nat)
    requires id < |Reach(n, actions).entries.all|
    ensures CanClose(n, actions, id) <==> !Reach(n, actions).entries.all[id].stage.Abandoned?
  {
    var s := Reach(n, actions);
    AlwaysSound(n, actions);
    assert EntrySound(s, id);
    var e := s.entries.all[id];
    if e.stage.Abandoned? {
      forall more
        ensures !ClosedAfter(n, actions + more, id)
      {
        StaysStuck(n, actions, id, more);
      }
    } else if e.closed {
      assert actions + [] == actions;
      assert ClosedAfter(n, actions + [], id);
    } else if s.threads[e.owner].Owning? {
      OwningCloses(n, actions, e.owner);
    } else if s.threads[e.owner].Performing? {
      PerformingCloses(n, actions, e.owner);
    } else {
      LookingCloses(n, actions, e.owner);
    }
  }

  /** An owner's entry can be closed after it consulted the cache exactly if the lookup gave it no early return. */
  lemma ClosesUnlessCached(n: nat, actions: seq<Action>, t: nat, q: Lookup)
    requires var s := Reach(n, actions); t < |s.threads| && s.threads[t].Owning?
    ensures CanClose(n, actions + [Consult(t, q)], Reach(n, actions).threads[t].id) <==> EarlyExit(q).None?
  {
    Abandons(n, actions, t, q);
    if EarlyExit(q).Some? {
      ClosableUnlessAbandoned(n, actions + [Consult(t, q)], Reach(n, actions).threads[t].id);
    } else {
      PerformingCloses(n, actions + [Consult(t, q)], t);
    }
  }
}
