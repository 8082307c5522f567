/** The token bucket of rate_limiter.go, run by one caller at a time. Refilling is lazy: it happens inside Allow. */
module RateLimiter {
  import opened Base

  datatype Config = Config(maxTokens: int, refillRate: int)

  datatype Bucket = Bucket(tokens: int, lastRefill: int)

  function Full(c: Config, created: int): Bucket {
    Bucket(c.maxTokens, created)
  }

  // refillTokens
  function Refill(c: Config, b: Bucket, now: int): Bucket {
    var tokensToAdd := if c.refillRate > 0 then GoDiv(now - b.lastRefill, c.refillRate) else 0;
    if tokensToAdd == 0 then b
    else Bucket(Min(b.tokens + tokensToAdd, c.maxTokens), b.lastRefill + tokensToAdd * c.refillRate)
  }

  function AllowStep(c: Config, b: Bucket, now: int): (Bucket, bool) {
    var r := Refill(c, b, now);
    if r.tokens <= 0 then (r, false) else (r.(tokens := r.tokens - 1), true)
  }

  class RateLimiter {
    const config: Config
    var tokens: int
    var lastRefill: int

    ghost function State(): Bucket
      reads this
    {
      Bucket(tokens, lastRefill)
    }

    constructor (maxTokens: int, refillRate: int, now: int)
      ensures config == Config(maxTokens, refillRate) && State() == Full(config, now)
    {
      config := Config(maxTokens, refillRate);
      tokens, lastRefill := maxTokens, now;
    }

    /** With no other caller the compare-and-swap succeeds, so the retry loop runs its body once. */
    method RefillTokens(now: int)
      modifies this
      ensures State() == Refill(config, old(State()), now)
    {
      var elapsed := now - lastRefill;
      var tokensToAdd := 0;
      if config.refillRate > 0 {
        tokensToAdd := GoDiv(elapsed, config.refillRate);
      }
      if tokensToAdd == 0 {
        return;
      }
      var newTokens := tokens + tokensToAdd;
      if newTokens > config.maxTokens {
        newTokens := config.maxTokens;
      }
      lastRefill := lastRefill + tokensToAdd * config.refillRate;
      tokens := newTokens;
    }

    method ConsumeToken() returns (taken: bool)
      modifies this
      ensures taken == (old(tokens) > 0) && lastRefill == old(lastRefill)
      ensures tokens == old(tokens) - (if taken then 1 else 0)
    {
      if tokens <= 0 {
        return false;
      }
      tokens := tokens - 1;
      return true;
    }

    method Allow(now: int) returns (allowed: bool)
      modifies this
      ensures (State(), allowed) == AllowStep(config, old(State()), now)
    {
      RefillTokens(now);
      allowed := ConsumeToken();
    }
  }

  // ---------- runs ----------

  /** The bucket after calls of Allow at the given times. */
  function Run(c: Config, created: int, times: seq<int>): Bucket {
    if times == [] then Full(c, created)
    else AllowStep(c, Run(c, created, times[..|times| - 1]), times[|times| - 1]).0
  }

  function Answers(c: Config, created: int, times: seq<int>): seq<bool> {
    if times == [] then []
    else
      var before := times[..|times| - 1];
      Answers(c, created, before) + [AllowStep(c, Run(c, created, before), times[|times| - 1]).1]
  }

  /** The clock never goes back, and calls come after creation. */
  ghost predicate Clock(created: int, times: seq<int>) {
    NonDecreasing([created] + times)
  }

  function Last(created: int, times: seq<int>): int {
    if times == [] then created else times[|times| - 1]
  }

  lemma ClockBefore(created: int, times: seq<int>)
    requires Clock(created, times) && times != []
    ensures var n := |times| - 1;
            Clock(created, times[..n]) && created <= Last(created, times[..n]) <= times[n]
  {
    var all := [created] + times;
    var n := |times| - 1;
    assert [created] + times[..n] == all[..|times|];
    assert all[0] <= all[n] <= all[n + 1];
  }

  /** How many whole refill periods, counted from created, have passed by time t. */
  function Ticks(c: Config, created: int, t: int): int
    requires c.refillRate > 0
  {
    (t - created) / c.refillRate
  }

  lemma {:induction false} RefillExact(c: Config, created: int, n: int, tokens: int, now: int)
    requires c.refillRate > 0 && created + n * c.refillRate <= now && tokens <= c.maxTokens
    ensures var r := Refill(c, Bucket(tokens, created + n * c.refillRate), now);
            var n' := Ticks(c, created, now);
            n <= n' && r == Bucket(Min(tokens + (n' - n), c.maxTokens), created + n' * c.refillRate)
  {
    var rate, d := c.refillRate, now - created;
    DivShift(d, n, rate);
    assert Ticks(c, created, now) == n + (d - n * rate) / rate;
    assert n * rate + ((d - n * rate) / rate) * rate == (n + (d - n * rate) / rate) * rate;
  }

  lemma DivShift(d: int, n: int, rate: int)
    requires rate > 0
    ensures (d - n * rate) / rate == d / rate - n
  {
    var q, r := d / rate, d % rate;
    assert d - n * rate == (q - n) * rate + r;
    DivUnique((q - n) * rate + r, rate, q - n, r);
  }

  lemma TickBounds(c: Config, created: int, t: int)
    requires c.refillRate > 0
    ensures var last := created + Ticks(c, created, t) * c.refillRate; last <= t < last + c.refillRate
  {
    var d := t - created;
    assert d == (d / c.refillRate) * c.refillRate + d % c.refillRate;
  }

  /**
   Between calls the bucket stands at a whole number of periods after creation, less than one period behind the last
   call.
   */
  lemma {:induction false} Resting(c: Config, created: int, times: seq<int>)
    requires Clock(created, times)
    ensures var b := Run(c, created, times);
            && Min(0, c.maxTokens) <= b.tokens <= c.maxTokens
            && (c.refillRate > 0 ==> b.lastRefill == created + Ticks(c, created, Last(created, times)) * c.refillRate
                                     && 0 <= Last(created, times) - b.lastRefill < c.refillRate)
            && (c.refillRate <= 0 ==> b.lastRefill == created)
  {
    if c.refillRate > 0 { TickBounds(c, created, Last(created, times)); }
    if times == [] {
      if c.refillRate > 0 { DivUnique(0, c.refillRate, 0, 0); }
    } else {
      var n := |times| - 1;
      ClockBefore(created, times);
      Resting(c, created, times[..n]);
      if c.refillRate > 0 {
        var b := Run(c, created, times[..n]);
        RefillExact(c, created, Ticks(c, created, Last(created, times[..n])), b.tokens, times[n]);
      }
    }
  }

  // ---------- the eager bucket ----------

  /** A bucket that watches the clock nanosecond by nanosecond, adding one token, capped, at each whole period. */
  function Eager(c: Config, created: int, tokens: int, start: int, finish: int): int
    requires start <= finish
    decreases finish - start
  {
    if start == finish then tokens
    else
      var before := Eager(c, created, tokens, start, finish - 1);
      if c.refillRate > 0 && (finish - created) % c.refillRate == 0 then Min(before + 1, c.maxTokens) else before
  }

  function EagerRun(c: Config, created: int, times: seq<int>): int
    requires Clock(created, times)
  {
    if times == [] then c.maxTokens
    else
      ClockBefore(created, times);
      var n := |times| - 1;
      var tokens := Eager(c, created, EagerRun(c, created, times[..n]), Last(created, times[..n]), times[n]);
      if tokens > 0 then tokens - 1 else tokens
  }

  function EagerAnswers(c: Config, created: int, times: seq<int>): seq<bool>
    requires Clock(created, times)
  {
    if times == [] then []
    else
      ClockBefore(created, times);
      var n := |times| - 1;
      EagerAnswers(c, created, times[..n])
      + [Eager(c, created, EagerRun(c, created, times[..n]), Last(created, times[..n]), times[n]) > 0]
  }

  lemma TickStep(d: int, rate: int)
    requires rate > 0
    ensures d / rate == (d - 1) / rate + if d % rate == 0 then 1 else 0
  {
    var q, r := d / rate, d % rate;
    if r == 0 {
      DivUnique(d - 1, rate, q - 1, rate - 1);
    } else {
      DivUnique(d - 1, rate, q, r - 1);
    }
  }

  lemma {:induction false} EagerCounts(c: Config, created: int, tokens: int, start: int, finish: int)
    requires c.refillRate > 0 && start <= finish && tokens <= c.maxTokens
    ensures Ticks(c, created, start) <= Ticks(c, created, finish)
    ensures Eager(c, created, tokens, start, finish)
            == Min(tokens + Ticks(c, created, finish) - Ticks(c, created, start), c.maxTokens)
    decreases finish - start
  {
    if start < finish {
      EagerCounts(c, created, tokens, start, finish - 1);
      TickStep(finish - created, c.refillRate);
    }
  }

  lemma {:induction false} EagerIdle(c: Config, created: int, tokens: int, start: int, finish: int)
    requires c.refillRate <= 0 && start <= finish
    ensures Eager(c, created, tokens, start, finish) == tokens
    decreases finish - start
  {
    if start < finish { EagerIdle(c, created, tokens, start, finish - 1); }
  }

  /** The lazy bucket and the eager one give the same answers and hold the same tokens at every call. */
  lemma {:induction false} LazyIsEager(c: Config, created: int, times: seq<int>)
    requires Clock(created, times)
    ensures Answers(c, created, times) == EagerAnswers(c, created, times)
    ensures Run(c, created, times).tokens == EagerRun(c, created, times)
  {
    if times != [] {
      var n := |times| - 1;
      ClockBefore(created, times);
      LazyIsEager(c, created, times[..n]);
      Resting(c, created, times[..n]);
      var b, last := Run(c, created, times[..n]), Last(created, times[..n]);
      if c.refillRate > 0 {
        RefillExact(c, created, Ticks(c, created, last), b.tokens, times[n]);
        EagerCounts(c, created, b.tokens, last, times[n]);
      } else {
        EagerIdle(c, created, b.tokens, last, times[n]);
      }
    }
  }

  // ---------- how many grants a window can hold ----------

  /** The number of calls at or after time s that were granted. */
  function Grants(c: Config, created: int, times: seq<int>, s: int): nat {
    if times == [] then 0
    else
      var before, now := times[..|times| - 1], times[|times| - 1];
      Grants(c, created, before, s) + if now >= s && AllowStep(c, Run(c, created, before), now).1 then 1 else 0
  }

  lemma {:induction false} GrantsPaidFor(c: Config, created: int, times: seq<int>, s: int)
    requires Clock(created, times) && c.refillRate > 0
    ensures Last(created, times) < s ==> Grants(c, created, times, s) == 0
    ensures Last(created, times) >= s && times != [] ==>
              Grants(c, created, times, s) + Run(c, created, times).tokens
              <= c.maxTokens + Ticks(c, created, Last(created, times)) - Ticks(c, created, s)
  {
    if times != [] {
      var n := |times| - 1;
      ClockBefore(created, times);
      GrantsPaidFor(c, created, times[..n], s);
      Resting(c, created, times[..n]);
      var b, last := Run(c, created, times[..n]), Last(created, times[..n]);
      RefillExact(c, created, Ticks(c, created, last), b.tokens, times[n]);
      if times[n] >= s {
        EagerCounts(c, created, c.maxTokens, s, times[n]);
      }
    }
  }

  lemma TicksInWindow(c: Config, created: int, s: int, t: int)
    requires c.refillRate > 0 && s <= t
    ensures Ticks(c, created, t) - Ticks(c, created, s) <= (t - s) / c.refillRate + 1
  {
    var rate := c.refillRate;
    var a, b, w := s - created, t - created, t - s;
    var q := a / rate + w / rate;
    assert b == q * rate + a % rate + w % rate by {
      assert a == (a / rate) * rate + a % rate && w == (w / rate) * rate + w % rate;
      assert q * rate == (a / rate) * rate + (w / rate) * rate;
    }
    var r := a % rate + w % rate;
    if r < rate {
      DivUnique(b, rate, q, r);
    } else {
      assert (q + 1) * rate == q * rate + rate;
      DivUnique(b, rate, q + 1, r - rate);
    }
  }

  /** Any window [s, t] holds at most maxTokens + (t - s)/refillRate + 1 grants. */
  lemma WindowBound(c: Config, created: int, times: seq<int>, s: int, t: int)
    requires Clock(created, times) && c.refillRate > 0 && s <= t && Last(created, times) <= t
    ensures Grants(c, created, times, s) <= Max(0, c.maxTokens) + Ticks(c, s, t) + 1
  {
    if times != [] && Last(created, times) >= s {
      var last := Last(created, times);
      GrantsPaidFor(c, created, times, s);
      Resting(c, created, times);
      EagerCounts(c, created, c.maxTokens, last, t);
      TicksInWindow(c, created, s, t);
    } else {
      GrantsPaidFor(c, created, times, s);
    }
  }

  /** From creation on the spare token of a window is not needed: the first period starts with the bucket. */
  lemma RunBound(c: Config, created: int, times: seq<int>, t: int)
    requires Clock(created, times) && c.refillRate > 0 && Last(created, times) <= t
    ensures Grants(c, created, times, created) <= Max(0, c.maxTokens) + Ticks(c, created, t)
  {
    var last := Last(created, times);
    var all := [created] + times;
    assert all[0] == created <= all[|all| - 1] == last;
    DivMonotone(last - created, t - created, c.refillRate);
    DivMonotone(0, last - created, c.refillRate);
    if times != [] {
      GrantsPaidFor(c, created, times, created);
      Resting(c, created, times);
    }
  }

  /** Calls at or after s that follow others are granted no more than the calls at or after s are. */
  lemma {:induction false} GrantsAfter(c: Config, created: int, times: seq<int>, more: seq<int>, s: int)
    requires forall i :: 0 <= i < |more| ==> more[i] >= s
    ensures Grants(c, created, times + more, created) - Grants(c, created, times, created)
            <= Grants(c, created, times + more, s)
  {
    if more == [] {
      assert times + more == times;
    } else {
      var k := |more| - 1;
      assert (times + more)[..|times + more| - 1] == times + more[..k];
      GrantsAfter(c, created, times, more[..k], s);
    }
  }

  /** Without a positive refill period the bucket never refills. */
  lemma {:induction false} NoRefill(c: Config, created: int, times: seq<int>, s: int)
    requires c.refillRate <= 0
    ensures Run(c, created, times).tokens <= c.maxTokens
    ensures Grants(c, created, times, s) <= c.maxTokens - Run(c, created, times).tokens
    ensures Run(c, created, times).tokens >= Min(0, c.maxTokens)
  {
    if times != [] { NoRefill(c, created, times[..|times| - 1], s); }
  }
}
