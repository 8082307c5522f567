/** The retry budget of retry_policy.go, called by one goroutine at a time: so many retries for each window of time. */
module RetryBudget {
  import opened Base

  datatype Config = Config(maxRetries: int, perWindow: int)

  datatype Budget = Budget(current: int, windowStart: int)

  /** One Allow at time now: the new state and the answer. */
  function AllowStep(c: Config, b: Budget, now: int): (Budget, bool) {
    var b1 := if now - b.windowStart >= c.perWindow then Budget(0, now) else b;
    if b1.current >= c.maxRetries then (b1, false)
    else (b1.(current := b1.current + 1), true)
  }

  class RetryBudget {
    const maxRetries: int
    const perWindow: int
    var current: int
    var windowStart: int

    ghost function Value(): Budget
      reads this
    {
      Budget(current, windowStart)
    }

    ghost function Settings(): Config {
      Config(maxRetries, perWindow)
    }

    constructor (maxRetries: int, perWindow: int, now: int)
      ensures Settings() == Config(maxRetries, perWindow) && Value() == Budget(0, now)
    {
      this.maxRetries, this.perWindow := maxRetries, perWindow;
      current, windowStart := 0, now;
    }

    method Allow(now: int) returns (allowed: bool)
      modifies this
      ensures (Value(), allowed) == AllowStep(Settings(), old(Value()), now)
    {
      if now - windowStart >= perWindow {
        windowStart := now;
        current := 0;
      }
      if current >= maxRetries {
        return false;
      }
      var newCurrent := current + 1;
      current := newCurrent;
      return newCurrent <= maxRetries;
    }
  }

  // ---------- runs ----------

  /** The state after Allow was called at each of the times in turn. */
  function Run(c: Config, created: int, times: seq<int>): Budget {
    if times == [] then Budget(0, created)
    else AllowStep(c, Run(c, created, times[..|times| - 1]), times[|times| - 1]).0
  }

  /** How many of the calls from the i-th on were granted. */
  function Grants(c: Config, created: int, times: seq<int>, i: nat): nat {
    if |times| <= i then 0
    else
      var k := |times| - 1;
      Grants(c, created, times[..k], i) + if AllowStep(c, Run(c, created, times[..k]), times[k]).1 then 1 else 0
  }

  /** When the windows of the run began. */
  function Starts(c: Config, created: int, times: seq<int>): (starts: seq<int>)
    ensures |starts| >= 1
  {
    if times == [] then [created]
    else
      var k := |times| - 1;
      var before := Starts(c, created, times[..k]);
      if times[k] - Run(c, created, times[..k]).windowStart >= c.perWindow then before + [times[k]] else before
  }

  /** How many calls came in the present window. */
  function CallsInWindow(c: Config, created: int, times: seq<int>): nat {
    if times == [] then 0
    else
      var k := |times| - 1;
      if times[k] - Run(c, created, times[..k]).windowStart >= c.perWindow then 1
      else CallsInWindow(c, created, times[..k]) + 1
  }

  ghost predicate Spaced(starts: seq<int>, d: int) {
    forall i :: 0 < i < |starts| ==> starts[i] - starts[i - 1] >= d
  }

  /** Window starts are at least perWindow apart, and the last one is the windowStart in force. */
  lemma {:induction false} WindowsApart(c: Config, created: int, times: seq<int>)
    ensures var starts := Starts(c, created, times);
            Spaced(starts, c.perWindow) && starts[|starts| - 1] == Run(c, created, times).windowStart
                && starts[0] == created
  {
    if times != [] { WindowsApart(c, created, times[..|times| - 1]); }
  }

  /** The budget grants exactly the first maxRetries calls of each window. */
  lemma {:induction false} FirstCallsOfWindow(c: Config, created: int, times: seq<int>, now: int)
    requires c.maxRetries >= 0
    ensures Run(c, created, times).current == Min(c.maxRetries, CallsInWindow(c, created, times))
    ensures AllowStep(c, Run(c, created, times), now).1 <==> CallsInWindow(c, created, times + [now]) <= c.maxRetries
  {
    if times != [] { FirstCallsOfWindow(c, created, times[..|times| - 1], times[|times| - 1]); }
    assert (times + [now])[..|times|] == times;
  }

  lemma {:induction false} SpacedSpan(starts: seq<int>, d: int)
    requires |starts| >= 1 && Spaced(starts, d)
    ensures (|starts| - 1) * d <= starts[|starts| - 1] - starts[0]
  {
    if |starts| > 1 {
      var k := |starts| - 1;
      assert Spaced(starts[..k], d) by { assert forall i :: 0 < i < k ==> starts[i] - starts[i - 1] >= d; }
      SpacedSpan(starts[..k], d);
      assert k * d == (k - 1) * d + d;
    }
  }

  /** One call and the account of grants: at most maxRetries for each window left behind, and current in this one. */
  lemma Charge(c: Config, b: Budget, now: int, grants: int, windows: nat)
    requires 0 <= b.current <= c.maxRetries && grants <= b.current + c.maxRetries * windows
    ensures var (b', granted) := AllowStep(c, b, now);
            var windows' := windows + if now - b.windowStart >= c.perWindow then 1 else 0;
            && 0 <= b'.current <= c.maxRetries
            && grants + (if granted then 1 else 0) <= b'.current + c.maxRetries * windows'
  {
    assert c.maxRetries * (windows + 1) == c.maxRetries * windows + c.maxRetries;
  }

  lemma {:induction false} GrantsPerWindow(c: Config, created: int, times: seq<int>)
    requires c.maxRetries >= 0
    ensures 0 <= Run(c, created, times).current <= c.maxRetries
    ensures Grants(c, created, times, 0)
            <= Run(c, created, times).current + c.maxRetries * (|Starts(c, created, times)| - 1)
  {
    if times != [] {
      var before, now := times[..|times| - 1], times[|times| - 1];
      GrantsPerWindow(c, created, before);
      Charge(c, Run(c, created, before), now, Grants(c, created, before, 0), |Starts(c, created, before)| - 1);
    }
  }

  /** maxRetries for every window length begun between created and now. */
  function Allowance(c: Config, created: int, now: int): int
    requires c.perWindow > 0
  {
    c.maxRetries * ((now - created) / c.perWindow + 1)
  }

  /** Full budgets of the windows begun fit in the allowance, windows being at least perWindow apart. */
  lemma AllowanceCovers(c: Config, created: int, now: int, windows: nat)
    requires c.maxRetries >= 0 && c.perWindow > 0 && windows * c.perWindow <= now - created
    ensures c.maxRetries + c.maxRetries * windows <= Allowance(c, created, now)
  {
    var d := (now - created) / c.perWindow;
    DivUnique(windows * c.perWindow, c.perWindow, windows, 0);
    DivMonotone(windows * c.perWindow, now - created, c.perWindow);
    MulMonotone(windows, d, c.maxRetries);
    assert c.maxRetries * (d + 1) == c.maxRetries * d + c.maxRetries;
  }

  lemma WindowsFit(c: Config, created: int, times: seq<int>, now: int)
    requires created <= now && forall i :: 0 <= i < |times| ==> times[i] <= now
    ensures (|Starts(c, created, times)| - 1) * c.perWindow <= now - created
  {
    WindowsApart(c, created, times);
    SpacedSpan(Starts(c, created, times), c.perWindow);
    StartIsACall(c, created, times);
  }

  /** Over a run that began at created and lasted up to time now, at most maxRetries grants for each window begun. */
  lemma RunBound(c: Config, created: int, times: seq<int>, now: int)
    requires c.maxRetries >= 0 && c.perWindow > 0
    requires created <= now && forall i :: 0 <= i < |times| ==> times[i] <= now
    ensures Grants(c, created, times, 0) <= Allowance(c, created, now)
  {
    GrantsPerWindow(c, created, times);
    WindowsFit(c, created, times, now);
    AllowanceCovers(c, created, now, |Starts(c, created, times)| - 1);
  }

  lemma {:induction false} StartIsACall(c: Config, created: int, times: seq<int>)
    ensures var w := Run(c, created, times).windowStart; w == created || exists i :: 0 <= i < |times| && times[i] == w
  {
    if times != [] {
      var k := |times| - 1;
      StartIsACall(c, created, times[..k]);
      if Run(c, created, times).windowStart == times[k] {
      } else if Run(c, created, times).windowStart != created {
        var i :| 0 <= i < k && times[..k][i] == Run(c, created, times).windowStart;
        assert times[i] == Run(c, created, times).windowStart;
      }
    }
  }

  /** The calls from the i-th on, all made within less than one window: grants, by whether a new window has begun. */
  lemma {:induction false} IntervalGrants(c: Config, created: int, times: seq<int>, i: nat)
    requires c.maxRetries >= 0 && NonDecreasing(times)
    requires i < |times| ==> times[|times| - 1] - times[i] < c.perWindow
    requires i <= |times|
    ensures var b0, b := Run(c, created, times[..i]), Run(c, created, times);
            || (b.windowStart == b0.windowStart && Grants(c, created, times, i) == b.current - b0.current)
            || (i < |times| && b.windowStart >= times[i]
                && Grants(c, created, times, i) <= c.maxRetries - b0.current + b.current)
  {
    GrantsPerWindow(c, created, times[..i]);
    if i < |times| {
      var k := |times| - 1;
      var before := times[..k];
      assert before[..i] == times[..i];
      if i < k { assert before[k - 1] == times[k - 1] && before[i] == times[i] && times[k - 1] <= times[k]; }
      IntervalGrants(c, created, before, i);
      GrantsPerWindow(c, created, before);
    } else {
      assert times[..i] == times;
    }
  }

  /** Any half-open interval of one window length holds at most twice maxRetries grants. */
  lemma IntervalBound(c: Config, created: int, times: seq<int>, i: nat)
    requires c.maxRetries >= 0 && NonDecreasing(times)
    requires i < |times| && times[|times| - 1] - times[i] < c.perWindow
    ensures Grants(c, created, times, i) <= 2 * c.maxRetries
  {
    IntervalGrants(c, created, times, i);
    GrantsPerWindow(c, created, times[..i]);
    GrantsPerWindow(c, created, times);
  }

  function Repeat(t: int, k: nat): seq<int> {
    if k == 0 then [] else Repeat(t, k - 1) + [t]
  }

  /** After the calls at times the state is b, and g of them were granted. */
  ghost predicate Stands(c: Config, created: int, times: seq<int>, b: Budget, g: int) {
    Run(c, created, times) == b && Grants(c, created, times, 0) == g
  }

  lemma Another(c: Config, created: int, times: seq<int>, b: Budget, g: int, t: int)
    requires Stands(c, created, times, b, g)
    ensures Stands(c, created, times + [t], AllowStep(c, b, t).0, g + if AllowStep(c, b, t).1 then 1 else 0)
  {
  }

  lemma {:induction false} Fill(c: Config, created: int, times: seq<int>, b: Budget, g: int, t: int, k: nat)
    requires Stands(c, created, times, b, g) && t - b.windowStart < c.perWindow && b.current + k <= c.maxRetries
    ensures Stands(c, created, times + Repeat(t, k), b.(current := b.current + k), g + k)
  {
    if k == 0 {
      assert times + Repeat(t, k) == times;
    } else {
      var before := times + Repeat(t, k - 1);
      Fill(c, created, times, b, g, t, k - 1);
      Another(c, created, before, b.(current := b.current + k - 1), g + k - 1, t);
      assert times + Repeat(t, k) == before + [t];
    }
  }

  lemma {:induction false} RepeatOnly(t: int, k: nat)
    ensures |Repeat(t, k)| == k && forall i :: 0 <= i < k ==> Repeat(t, k)[i] == t
  {
    if k > 0 { RepeatOnly(t, k - 1); }
  }

  /** A full budget at the last tick of the first window, and another at the first tick of the next. */
  function Border(c: Config, created: int): seq<int>
    requires c.maxRetries > 0
  {
    var end := created + c.perWindow;
    Repeat(end - 1, c.maxRetries) + [end] + Repeat(end, c.maxRetries - 1)
  }

  lemma BorderTimes(c: Config, created: int)
    requires c.maxRetries > 0 && c.perWindow > 0
    ensures var times := Border(c, created);
            && |times| == 2 * c.maxRetries && NonDecreasing(times)
            && times[0] == created + c.perWindow - 1 && times[|times| - 1] == created + c.perWindow
  {
    RepeatOnly(created + c.perWindow - 1, c.maxRetries);
    RepeatOnly(created + c.perWindow, c.maxRetries - 1);
  }

  /** Twice maxRetries is reached within one window length as soon as that is longer than a tick. */
  lemma BoundReached(c: Config, created: int)
    requires c.maxRetries > 0 && c.perWindow >= 2
    ensures var times := Border(c, created);
            && NonDecreasing(times) && times != [] && times[0] >= created
            && times[|times| - 1] - times[0] < c.perWindow
            && Grants(c, created, times, 0) == 2 * c.maxRetries
  {
    var end := created + c.perWindow;
    var first := Repeat(end - 1, c.maxRetries);
    Fill(c, created, [], Budget(0, created), 0, end - 1, c.maxRetries);
    assert [] + first == first;
    Another(c, created, first, Budget(c.maxRetries, created), c.maxRetries, end);
    Fill(c, created, first + [end], Budget(1, end), c.maxRetries + 1, end, c.maxRetries - 1);
    BorderTimes(c, created);
  }

  /**
   The calls from the i-th on fit in less than one window, come no earlier than creation, and got more than maxRetries
   grants.
   */
  ghost predicate Overfull(c: Config, created: int, times: seq<int>, i: nat) {
    && NonDecreasing(times) && i < |times| && times[0] >= created
    && times[|times| - 1] - times[i] < c.perWindow
    && Grants(c, created, times, i) > Max(0, c.maxRetries)
  }

  /** With windows of one tick, calls at one instant all fall in the same window. */
  lemma {:induction false} InstantGrants(c: Config, created: int, times: seq<int>, i: nat)
    requires c.maxRetries >= 0 && c.perWindow == 1 && NonDecreasing(times)
    requires i < |times| && times[|times| - 1] == times[i]
    ensures Run(c, created, times).windowStart >= times[i]
            && Grants(c, created, times, i) <= Run(c, created, times).current
  {
    var k := |times| - 1;
    var before := times[..k];
    GrantsPerWindow(c, created, before);
    if i < k {
      assert before[k - 1] == times[k - 1] && before[i] == times[i] && times[i] <= times[k - 1] <= times[k];
      InstantGrants(c, created, before, i);
    }
  }

  lemma {:induction false} NoGrants(c: Config, created: int, times: seq<int>, i: nat)
    requires c.maxRetries <= 0
    ensures Grants(c, created, times, i) == 0 && Run(c, created, times).current == 0
  {
    if times != [] { NoGrants(c, created, times[..|times| - 1], i); }
  }

  /**
   Some interval shorter than one window holds more than maxRetries grants exactly if windows are longer than a tick.
   */
  lemma OverfullWhen(c: Config, created: int)
    ensures (exists times: seq<int>, i: nat :: Overfull(c, created, times, i))
            <==> c.maxRetries >= 1 && c.perWindow >= 2
  {
    if c.maxRetries >= 1 && c.perWindow >= 2 {
      BoundReached(c, created);
      assert Overfull(c, created, Border(c, created), 0);
    } else {
      forall times: seq<int>, i: nat
        ensures !Overfull(c, created, times, i)
      {
        NeverOverfull(c, created, times, i);
      }
    }
  }

  lemma NeverOverfull(c: Config, created: int, times: seq<int>, i: nat)
    requires c.maxRetries <= 0 || c.perWindow <= 1
    ensures !Overfull(c, created, times, i)
  {
    if c.maxRetries <= 0 {
      NoGrants(c, created, times, i);
    } else if c.perWindow == 1 && NonDecreasing(times) && i < |times| && times[|times| - 1] <= times[i] {
      InstantGrants(c, created, times, i);
      GrantsPerWindow(c, created, times);
    }
  }
}
