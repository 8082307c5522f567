/**
 The two limiters on the same calls of Allow, one caller at a time: whatever arguments both are built with, some calls
 are answered differently, so neither replaces the other.
 */
module LimiterComparison {
  import opened Base
  import R = RateLimiter
  import O = OptimizedRateLimiter

  /** The optimized limiter's bucket after calls of Allow at the given times, the first on a full bucket. */
  function Run(c: O.Config, created: int, times: seq<int>): R.Bucket
    requires O.Positive(c)
  {
    if times == [] then R.Bucket(c.maxTokens, created)
    else O.Call(c, Run(c, created, times[..|times| - 1]), times[|times| - 1], O.Allow).0
  }

  function Answers(c: O.Config, created: int, times: seq<int>): seq<bool>
    requires O.Positive(c)
  {
    if times == [] then []
    else
      var before := times[..|times| - 1];
      Answers(c, created, before) + [O.Call(c, Run(c, created, before), times[|times| - 1], O.Allow).1]
  }

  /** Built at the same moment, the two answer every one of these calls alike. */
  predicate Alike(c: R.Config, o: O.Config, created: int, times: seq<int>)
    requires O.Positive(o)
  {
    R.Answers(c, created, times) == Answers(o, created, times)
  }

  /** One more call. */
  lemma RunMore(c: R.Config, o: O.Config, created: int, times: seq<int>, t: int)
    requires O.Positive(o)
    ensures R.Run(c, created, times + [t]) == R.AllowStep(c, R.Run(c, created, times), t).0
    ensures Run(o, created, times + [t]) == O.Call(o, Run(o, created, times), t, O.Allow).0
  {
    assert (times + [t])[..|times|] == times;
  }

  /** Where the next call is answered differently, the two are not alike. */
  lemma NextDiffers(c: R.Config, o: O.Config, created: int, times: seq<int>, t: int)
    requires O.Positive(o)
    requires R.AllowStep(c, R.Run(c, created, times), t).1 != O.Call(o, Run(o, created, times), t, O.Allow).1
    ensures !Alike(c, o, created, times + [t])
  {
    assert (times + [t])[..|times|] == times;
    var a, b := R.Answers(c, created, times + [t]), Answers(o, created, times + [t]);
    assert a[|a| - 1] == R.AllowStep(c, R.Run(c, created, times), t).1;
    assert b[|b| - 1] == O.Call(o, Run(o, created, times), t, O.Allow).1;
  }

  /** k calls at one instant. */
  function Burst(t: int, k: nat): (times: seq<int>)
    ensures |times| == k && forall i :: 0 <= i < k ==> times[i] == t
  {
    if k == 0 then [] else Burst(t, k - 1) + [t]
  }

  /** A call at the time of the last refill takes a token from either limiter. */
  lemma TakeOne(c: R.Config, o: O.Config, tokens: int, now: int)
    requires O.Positive(o) && tokens >= 1
    ensures R.AllowStep(c, R.Bucket(tokens, now), now).0 == R.Bucket(tokens - 1, now)
    ensures O.Call(o, R.Bucket(tokens, now), now, O.Allow).0 == R.Bucket(tokens - 1, now)
  {
    if c.refillRate > 0 { DivUnique(0, c.refillRate, 0, 0); }
  }

  /** Calls at the moment of creation drain both limiters alike. */
  lemma {:induction false} DrainAtOnce(c: R.Config, o: O.Config, created: int, k: nat)
    requires O.Positive(o) && o.maxTokens == c.maxTokens && k <= c.maxTokens
    ensures R.Run(c, created, Burst(created, k)) == R.Bucket(c.maxTokens - k, created)
    ensures Run(o, created, Burst(created, k)) == R.Bucket(c.maxTokens - k, created)
  {
    if k > 0 {
      DrainAtOnce(c, o, created, k - 1);
      RunMore(c, o, created, Burst(created, k - 1), created);
      TakeOne(c, o, c.maxTokens - k + 1, created);
    }
  }

  /** Drained, the optimized limiter grants a token one of its periods later. */
  lemma PeriodLater(o: O.Config, created: int)
    requires O.Positive(o)
    ensures O.Call(o, R.Bucket(0, created), created + o.refillRate, O.Allow).1
  {
    DivUnique(o.refillRate, o.refillRate, 1, 0);
  }

  /** The original grants nothing then, unless its own period is over. */
  lemma TooEarly(c: R.Config, created: int, elapsed: int)
    requires elapsed >= 0 && (c.refillRate > 0 ==> elapsed < c.refillRate)
    ensures !R.AllowStep(c, R.Bucket(0, created), created + elapsed).1
  {
    if c.refillRate > 0 { DivUnique(elapsed, c.refillRate, 0, elapsed); }
  }

  /** Whole periods without a call leave the original's bucket full, with no lag. */
  lemma FullAgain(c: R.Config, created: int, t: int, q: int)
    requires c.refillRate > 0 && c.maxTokens >= 1 && q >= 1 && t == created + q * c.refillRate
    ensures R.AllowStep(c, R.Bucket(c.maxTokens, created), t).0 == R.Bucket(c.maxTokens - 1, t)
  {
    DivUnique(t - created, c.refillRate, q, 0);
    MulMonotone(0, q, c.refillRate);
  }

  /** Calls at one instant then get one full bucket from it. */
  lemma {:induction false} OriginalBurst(c: R.Config, o: O.Config, created: int, t: int, k: nat)
    requires O.Positive(o) && k < c.maxTokens
    requires R.AllowStep(c, R.Bucket(c.maxTokens, created), t).0 == R.Bucket(c.maxTokens - 1, t)
    ensures R.Run(c, created, Burst(t, k + 1)) == R.Bucket(c.maxTokens - k - 1, t)
  {
    RunMore(c, o, created, Burst(t, k), t);
    if k > 0 {
      OriginalBurst(c, o, created, t, k - 1);
      TakeOne(c, o, c.maxTokens - k, t);
    }
  }

  /** lastRefill lags behind by that many batches. */
  ghost predicate Lags(o: O.Config, b: R.Bucket, now: int, batches: int) {
    0 <= b.tokens <= o.maxTokens && now - b.lastRefill >= batches * (o.batchSize * o.refillRate)
  }

  lemma BatchTaken(o: O.Config, b: R.Bucket, now: int, batches: int, left: int)
    requires O.Positive(o) && Lags(o, b, now, batches) && batches == left + 1 && left >= 0
    ensures var (b', granted) := O.Call(o, b, now, O.Allow); granted && Lags(o, b', now, left)
  {
    var lump := o.batchSize * o.refillRate;
    MulMonotone(1, o.batchSize, o.refillRate);
    MulMonotone(1, batches, lump);
    assert left * lump == batches * lump - lump;
    O.LagStep(o, b, now);
  }

  /** k such calls take k batches off the lag of the optimized limiter. */
  lemma {:induction false} OptimizedBurst(o: O.Config, created: int, t: int, k: nat, left: nat)
    requires O.Positive(o) && Lags(o, R.Bucket(o.maxTokens, created), t, k + left)
    ensures Lags(o, Run(o, created, Burst(t, k)), t, left)
  {
    if k > 0 {
      OptimizedBurst(o, created, t, k - 1, left + 1);
      RunMore(R.Config(0, 0), o, created, Burst(t, k - 1), t);
      BatchTaken(o, Run(o, created, Burst(t, k - 1)), t, left + 1, left);
    }
  }

  lemma BurstClock(created: int, t: int, k: nat)
    requires created <= t
    ensures R.Clock(created, Burst(t, k))
  {
  }

  lemma LaterClock(created: int, t: int, k: nat)
    requires created <= t
    ensures R.Clock(created, Burst(created, k) + [t])
  {
  }

  /** With a shorter period, or where the original never refills, the optimized limiter grants a token sooner. */
  lemma Sooner(c: R.Config, o: O.Config, created: int) returns (times: seq<int>)
    requires O.Positive(o) && o.maxTokens == c.maxTokens && (c.refillRate <= 0 || o.refillRate < c.refillRate)
    ensures R.Clock(created, times) && !Alike(c, o, created, times)
  {
    var t := created + o.refillRate;
    times := Burst(created, c.maxTokens) + [t];
    DrainAtOnce(c, o, created, c.maxTokens);
    PeriodLater(o, created);
    TooEarly(c, created, o.refillRate);
    NextDiffers(c, o, created, Burst(created, c.maxTokens), t);
    LaterClock(created, t, c.maxTokens);
  }

  /** With the same capacity and period, the optimized limiter has more to give after a long idle time. */
  lemma LongIdle(c: R.Config, o: O.Config, created: int) returns (times: seq<int>)
    requires O.Positive(o) && o.maxTokens == c.maxTokens && o.refillRate == c.refillRate
    ensures R.Clock(created, times) && !Alike(c, o, created, times)
  {
    var max, rate := c.maxTokens, c.refillRate;
    var q := IdlePeriods(o.batchSize, rate, max + 1);
    var t := created + q * rate;
    FullAgain(c, created, t, q);
    OriginalBurst(c, o, created, t, max - 1);
    OptimizedBurst(o, created, t, max, 1);
    BatchTaken(o, Run(o, created, Burst(t, max)), t, 1, 0);
    TooEarly(c, t, 0);
    NextDiffers(c, o, created, Burst(t, max), t);
    BurstClock(created, t, max + 1);
    times := Burst(t, max) + [t];
    assert times == Burst(t, max + 1);
  }

  lemma IdlePeriods(batch: int, rate: int, batches: int) returns (q: int)
    requires batch >= 1 && rate >= 1 && batches >= 1
    ensures q >= 1 && q * rate >= 0 && q * rate == batches * (batch * rate)
  {
    q := batches * batch;
    MulMonotone(1, batch, batches);
    MulMonotone(0, q, rate);
  }

  /** The period of the optimized limiter is never the longer one. */
  lemma NoSlower(maxTokens: int, refillRate: int)
    ensures O.Configure(maxTokens, refillRate).maxTokens == Max(1, maxTokens)
    ensures refillRate > 0 ==> O.Configure(maxTokens, refillRate).refillRate <= refillRate
  {
    if refillRate > 0 {
      var max := Max(1, maxTokens);
      O.ShareOf(refillRate, max);
      Part(refillRate, max);
    }
  }

  lemma Part(x: int, d: int)
    requires x >= 0 && d >= 1
    ensures x / d <= x
  {
    DivMonotone(0, x, d);
    assert x == (x / d) * d + x % d;
    MulMonotone(1, d, x / d);
  }

  /**
   The optimized limiter is documented as a drop-in replacement. There are no arguments with which it is one: some calls
   of Allow, at times that do not decrease, get different answers from the two. Without a positive maxTokens only the
   optimized limiter ever has a token.
   */
  lemma NeverAlike(maxTokens: int, refillRate: int, created: int) returns (times: seq<int>)
    ensures R.Clock(created, times)
    ensures !Alike(R.Config(maxTokens, refillRate), O.Configure(maxTokens, refillRate), created, times)
  {
    var c, o := R.Config(maxTokens, refillRate), O.Configure(maxTokens, refillRate);
    NoSlower(maxTokens, refillRate);
    if maxTokens <= 0 {
      NoToken(c, o, created);
      LaterClock(created, created, 0);
      times := Burst(created, 0) + [created];
    } else if refillRate <= 0 || o.refillRate < refillRate {
      times := Sooner(c, o, created);
    } else {
      times := LongIdle(c, o, created);
    }
  }

  /** Without a positive capacity the original denies the first call, which the optimized limiter grants. */
  lemma NoToken(c: R.Config, o: O.Config, created: int)
    requires O.Positive(o) && c.maxTokens <= 0
    ensures !Alike(c, o, created, Burst(created, 0) + [created])
  {
    if c.refillRate > 0 { DivUnique(0, c.refillRate, 0, 0); }
    NextDiffers(c, o, created, Burst(created, 0), created);
  }
}
