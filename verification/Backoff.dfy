/**
 Retry delays: the strategies of internal/backoff/strategy.go and the two fallback copies, in client.go and in
 retry_policy.go. Durations are integers, floating-point numbers are reals, and each random draw is a parameter.
 */
module Backoff {
  import opened Base

  /** A duration made from a floating-point number is truncated toward zero. */
  function Truncate(x: real): int {
    if x >= 0.0 then x.Floor else -(-x).Floor
  }

  /** The product of two floating-point numbers, taken as exact. */
  function Times(x: real, y: real): real {
    x * y
  }

  function Power(base: real, n: nat): real {
    if n == 0 then 1.0 else Times(Power(base, n - 1), base)
  }

  function Clamp(jitter: real): real {
    if jitter < 0.0 then 0.0 else if jitter > 1.0 then 1.0 else jitter
  }

  /** A raw delay as a duration; whatever does not fit below max becomes max. */
  function Capped(raw: real, max: int): int {
    var b := Truncate(raw);
    if b < 0 || b > max then max else b
  }

  /** The delay before jitter. */
  function Unjittered(attempt: int, initial: int, max: int, multiplier: real): int {
    Capped(Times(initial as real, Power(multiplier, Min(Max(attempt, 0), 30))), max)
  }

  function Jittered(b: int, max: int, jitter: real, draw: real): int {
    if jitter > 0.0 then Min(b + Truncate(Times(Times(b as real, jitter), draw)), max) else b
  }

  function Exponential(attempt: int, initial: int, max: int, multiplier: real, jitter: real, draw: real): int {
    Jittered(Unjittered(attempt, initial, max, multiplier), max, Clamp(jitter), draw)
  }

  /** The top of a range that begins at base and would reach up to raw. */
  function Top(base: real, raw: real, max: real): real {
    var capped := if raw > max || raw < 0.0 then max else raw;
    if capped < base then base else capped
  }

  /** The top of the range that a decorrelated delay is drawn from. */
  function Upper(attempt: int, initial: int, max: int): real
    requires attempt > 0
  {
    Top(initial as real, Times(initial as real, Power(3.0, Min(attempt, 10))), max as real)
  }

  function Between(base: real, top: real, draw: real): real {
    base + Times(draw, top - base)
  }

  function Decorrelated(attempt: int, initial: int, max: int, draw: real): int {
    if attempt <= 0 then initial else Capped(Between(initial as real, Upper(attempt, initial, max), draw), max)
  }

  // ---------- the code ----------

  method Pow(base: real, exponent: int) returns (result: real)
    ensures result == Power(base, Max(exponent, 0))
  {
    result := 1.0;
    var i := 0;
    while i < exponent
      invariant 0 <= i <= Max(exponent, 0)
      invariant result == Power(base, i)
    {
      result := Times(result, base);
      i := i + 1;
    }
  }

  function Distance(x: real, y: real): real {
    if x <= y then y - x else x - y
  }

  /** Jitter becomes the nearest fraction: the one itself if it is one, and otherwise the end of [0, 1] on its side. */
  method ClampJitter(jitter: real) returns (r: real)
    ensures r == Clamp(jitter) && 0.0 <= r <= 1.0
    ensures r == jitter <==> 0.0 <= jitter <= 1.0
    ensures forall x: real {:trigger Distance(x, jitter)} ::
              0.0 <= x <= 1.0 ==> Distance(r, jitter) <= Distance(x, jitter)
  {
    if jitter < 0.0 {
      return 0.0;
    }
    if jitter > 1.0 {
      return 1.0;
    }
    return jitter;
  }

  /** The part of the exponential calculation that follows the cap. */
  method AddJitter(b: int, max: int, jitter: real, draw: real) returns (backoff: int)
    ensures backoff == Jittered(b, max, jitter, draw)
  {
    backoff := b;
    if jitter > 0.0 {
      var amount := Truncate(Times(Times(backoff as real, jitter), draw));
      if backoff + amount > max {
        backoff := max;
      } else {
        backoff := backoff + amount;
      }
    }
  }

  /** The part of the decorrelated calculation that follows the choice of the range. */
  method DrawBetween(base: real, upper: real, max: int, draw: real) returns (result: int)
    ensures result == Capped(Between(base, upper, draw), max)
  {
    var delay := base + Times(draw, upper - base);
    result := Truncate(delay);
    if result < 0 || result > max {
      result := max;
    }
  }

  method CalculateExponential(attempt: int, initial: int, max: int, multiplier: real, jitter: real, draw: real)
    returns (backoff: int)
    ensures backoff == Exponential(attempt, initial, max, multiplier, jitter, draw)
  {
    var a := attempt;
    if a < 0 {
      a := 0;
    }
    if a > 30 {
      a := 30;
    }
    var p := Pow(multiplier, a);
    backoff := Truncate(Times(initial as real, p));
    if backoff < 0 || backoff > max {
      backoff := max;
    }
    var j := ClampJitter(jitter);
    backoff := AddJitter(backoff, max, j, draw);
  }

  method CalculateDecorrelated(attempt: int, initial: int, max: int, draw: real) returns (result: int)
    ensures result == Decorrelated(attempt, initial, max, draw)
  {
    if attempt <= 0 {
      return initial;
    }
    var a := attempt;
    if a > 10 {
      a := 10;
    }
    var base := initial as real;
    var factor := Pow(3.0, a);
    var upper := Times(base, factor);
    if upper > max as real || upper < 0.0 {
      upper := max as real;
    }
    if upper < base {
      upper := base;
    }
    result := DrawBetween(base, upper, max, draw);
  }

  datatype BackoffStrategy = ExponentialJitter | DecorrelatedJitter | OtherStrategy(code: int)

  datatype Settings = Settings(initialBackoff: int, maxBackoff: int, backoffMultiplier: real, jitter: real)

  /** Any strategy but DecorrelatedJitter is taken as exponential. */
  function Delay(strategy: BackoffStrategy, attempt: int, s: Settings, draw: real): int {
    if strategy.DecorrelatedJitter? then Decorrelated(attempt, s.initialBackoff, s.maxBackoff, draw)
    else Exponential(attempt, s.initialBackoff, s.maxBackoff, s.backoffMultiplier, s.jitter, draw)
  }

  /** calculateBackoff and the fallback functions of Client. */
  class ClientBackoff {
    const settings: Settings
    const backoffStrategy: BackoffStrategy
    const backoffCalculator: Option<BackoffStrategy>

    constructor (settings: Settings, backoffStrategy: BackoffStrategy, backoffCalculator: Option<BackoffStrategy>)
      ensures this.settings == settings && this.backoffStrategy == backoffStrategy
      ensures this.backoffCalculator == backoffCalculator
    {
      this.settings, this.backoffStrategy, this.backoffCalculator := settings, backoffStrategy, backoffCalculator;
    }

    /** The strategy in force. */
    function Effective(): BackoffStrategy {
      if backoffCalculator.Some? then backoffCalculator.value else backoffStrategy
    }

    method CalculateBackoff(attempt: int, draw: real) returns (r: int)
      ensures r == if backoffCalculator.Some? then Delay(backoffCalculator.value, attempt, settings, draw)
                   else Delay(backoffStrategy, attempt, settings, draw)
    {
      if backoffCalculator.None? {
        match backoffStrategy {
          case ExponentialJitter => r := CalculateExponentialBackoff(attempt, draw);
          case DecorrelatedJitter => r := CalculateDecorrelatedBackoff(attempt, draw);
          case OtherStrategy(_) => r := CalculateExponentialBackoff(attempt, draw);
        }
      } else if backoffCalculator.value.DecorrelatedJitter? {
        r := CalculateDecorrelated(attempt, settings.initialBackoff, settings.maxBackoff, draw);
      } else {
        r := CalculateExponential(attempt, settings.initialBackoff, settings.maxBackoff, settings.backoffMultiplier,
          settings.jitter, draw);
      }
    }

    method CalculateExponentialBackoff(attempt: int, draw: real) returns (backoff: int)
      ensures backoff
              == Exponential(attempt, settings.initialBackoff, settings.maxBackoff, settings.backoffMultiplier,
                   settings.jitter, draw)
    {
      var a := attempt;
      if a < 0 {
        a := 0;
      }
      if a > 30 {
        a := 30;
      }
      var p := Pow(settings.backoffMultiplier, a);
      backoff := Truncate(Times(settings.initialBackoff as real, p));
      if backoff < 0 || backoff > settings.maxBackoff {
        backoff := settings.maxBackoff;
      }
      var jitter := settings.jitter;
      if jitter < 0.0 {
        jitter := 0.0;
      }
      if jitter > 1.0 {
        jitter := 1.0;
      }
      backoff := AddJitter(backoff, settings.maxBackoff, jitter, draw);
    }

    method CalculateDecorrelatedBackoff(attempt: int, draw: real) returns (result: int)
      ensures result == Decorrelated(attempt, settings.initialBackoff, settings.maxBackoff, draw)
    {
      if attempt <= 0 {
        return settings.initialBackoff;
      }
      var a := if attempt > 10 then 10 else attempt;
      var base := settings.initialBackoff as real;
      var factor := Pow(3.0, a);
      var upper := Times(base, factor);
      if upper > settings.maxBackoff as real || upper < 0.0 {
        upper := settings.maxBackoff as real;
      }
      if upper < base {
        upper := base;
      }
      result := DrawBetween(base, upper, settings.maxBackoff, draw);
    }
  }

  /** DefaultRetryPolicy's own copies of the same functions. */
  class PolicyBackoff {
    const settings: Settings
    const backoffStrategy: BackoffStrategy
    const backoffCalculator: Option<BackoffStrategy>

    constructor (settings: Settings, backoffStrategy: BackoffStrategy, backoffCalculator: Option<BackoffStrategy>)
      ensures this.settings == settings && this.backoffStrategy == backoffStrategy
      ensures this.backoffCalculator == backoffCalculator
    {
      this.settings, this.backoffStrategy, this.backoffCalculator := settings, backoffStrategy, backoffCalculator;
    }

    /** The strategy in force. */
    function Effective(): BackoffStrategy {
      if backoffCalculator.Some? then backoffCalculator.value else backoffStrategy
    }

    method CalculateBackoff(attempt: int, draw: real) returns (r: int)
      ensures r == if backoffCalculator.Some? then Delay(backoffCalculator.value, attempt, settings, draw)
                   else Delay(backoffStrategy, attempt, settings, draw)
    {
      if backoffCalculator.None? {
        match backoffStrategy {
          case ExponentialJitter => r := CalculateExponentialBackoff(attempt, draw);
          case DecorrelatedJitter => r := CalculateDecorrelatedBackoff(attempt, draw);
          case OtherStrategy(_) => r := CalculateExponentialBackoff(attempt, draw);
        }
      } else if backoffCalculator.value.DecorrelatedJitter? {
        r := CalculateDecorrelated(attempt, settings.initialBackoff, settings.maxBackoff, draw);
      } else {
        r := CalculateExponential(attempt, settings.initialBackoff, settings.maxBackoff, settings.backoffMultiplier,
          settings.jitter, draw);
      }
    }

    method CalculateExponentialBackoff(attempt: int, draw: real) returns (backoff: int)
      ensures backoff
              == Exponential(attempt, settings.initialBackoff, settings.maxBackoff, settings.backoffMultiplier,
                   settings.jitter, draw)
    {
      var a := attempt;
      if a < 0 {
        a := 0;
      }
      if a > 30 {
        a := 30;
      }
      var p := Pow(settings.backoffMultiplier, a);
      backoff := Truncate(Times(settings.initialBackoff as real, p));
      if backoff < 0 || backoff > settings.maxBackoff {
        backoff := settings.maxBackoff;
      }
      var jitter := settings.jitter;
      if jitter < 0.0 {
        jitter := 0.0;
      }
      if jitter > 1.0 {
        jitter := 1.0;
      }
      backoff := AddJitter(backoff, settings.maxBackoff, jitter, draw);
    }

    method CalculateDecorrelatedBackoff(attempt: int, draw: real) returns (result: int)
      ensures result == Decorrelated(attempt, settings.initialBackoff, settings.maxBackoff, draw)
    {
      if attempt <= 0 {
        return settings.initialBackoff;
      }
      var a := if attempt > 10 then 10 else attempt;
      var base := settings.initialBackoff as real;
      var factor := Pow(3.0, a);
      var upper := Times(base, factor);
      if upper > settings.maxBackoff as real || upper < 0.0 {
        upper := settings.maxBackoff as real;
      }
      if upper < base {
        upper := base;
      }
      result := DrawBetween(base, upper, settings.maxBackoff, draw);
    }
  }

  // ---------- bounds ----------

  lemma MulBounds(x: real, f: real)
    requires x >= 0.0 && 0.0 <= f <= 1.0
    ensures 0.0 <= Times(x, f) <= x && Times(f, x) == Times(x, f)
  {
    assert x * (1.0 - f) >= 0.0;
  }

  lemma Scale(x: real, y: real, f: real)
    requires x <= y && f >= 0.0
    ensures Times(x, f) <= Times(y, f) && Times(f, x) <= Times(f, y)
  {
    assert (y - x) * f >= 0.0;
  }

  lemma {:induction false} PowerMonotone(base: real, m: nat, n: nat)
    requires base >= 1.0 && m <= n
    ensures 1.0 <= Power(base, m) <= Power(base, n)
    decreases n
  {
    if m < n {
      PowerMonotone(base, m, n - 1);
      Scale(1.0, base, Power(base, n - 1));
    } else if n > 0 {
      PowerMonotone(base, n - 1, n - 1);
      Scale(1.0, base, Power(base, n - 1));
    }
  }

  lemma CappedGrows(initial: int, x: real, y: real, max: int)
    requires 0 < initial <= max && initial as real <= x <= y
    ensures Capped(x, max) == Min(max, x.Floor)
    ensures initial <= Capped(x, max) <= Capped(y, max) <= max
  {
  }

  lemma RawGrows(initial: int, multiplier: real, m: nat, n: nat)
    requires 0 < initial && multiplier >= 1.0 && m <= n
    ensures initial as real <= Times(initial as real, Power(multiplier, m))
            <= Times(initial as real, Power(multiplier, n))
  {
    PowerMonotone(multiplier, m, n);
    Scale(1.0, Power(multiplier, m), initial as real);
    Scale(Power(multiplier, m), Power(multiplier, n), initial as real);
  }

  /** Before jitter the delay is the exponential cut off at max, at least initial, and never falls with the attempt. */
  lemma UnjitteredGrows(attempt: int, later: int, initial: int, max: int, multiplier: real)
    requires 0 < initial <= max && multiplier >= 1.0 && attempt <= later
    ensures Unjittered(attempt, initial, max, multiplier)
            == Min(max, (Times(initial as real, Power(multiplier, Min(Max(attempt, 0), 30)))).Floor)
    ensures initial <= Unjittered(attempt, initial, max, multiplier)
            <= Unjittered(later, initial, max, multiplier) <= max
  {
    var m, n := Min(Max(attempt, 0), 30), Min(Max(later, 0), 30);
    RawGrows(initial, multiplier, m, n);
    CappedGrows(initial, Times(initial as real, Power(multiplier, m)), Times(initial as real, Power(multiplier, n)),
        max);
  }

  lemma CappedBounds(raw: real, max: int)
    requires max >= 0
    ensures 0 <= Capped(raw, max) <= max
  {
  }

  lemma AmountFits(b: int, max: int, amount: real, most: real)
    requires 0 <= b <= max && 0.0 <= amount <= most
    ensures b <= Min(b + Truncate(amount), max) <= max
    ensures Min(b + Truncate(amount), max) as real <= b as real + most
    ensures amount == 0.0 ==> Truncate(amount) == 0
  {
  }

  lemma AmountBounds(x: real, jitter: real, draw: real)
    requires x >= 0.0 && 0.0 <= jitter <= 1.0 && 0.0 <= draw < 1.0
    ensures 0.0 <= Times(Times(x, jitter), draw) <= Times(x, jitter)
    ensures draw == 0.0 ==> Times(Times(x, jitter), draw) == 0.0
  {
    MulBounds(x, jitter);
    MulBounds(Times(x, jitter), draw);
  }

  /** Jitter only lengthens a delay, by less than the given fraction of it, and never beyond max. */
  lemma JitteredRange(b: int, max: int, jitter: real, draw: real)
    requires 0 <= b <= max && 0.0 <= jitter <= 1.0 && 0.0 <= draw < 1.0
    ensures b <= Jittered(b, max, jitter, draw) <= max
    ensures Jittered(b, max, jitter, draw) as real <= b as real + Times(b as real, jitter)
    ensures draw == 0.0 || jitter == 0.0 ==> Jittered(b, max, jitter, draw) == b
    ensures Jittered(b, max, jitter, draw) == Min(b + Times(Times(b as real, jitter), draw).Floor, max)
  {
    AmountBounds(b as real, jitter, draw);
    AmountFits(b, max, Times(Times(b as real, jitter), draw), Times(b as real, jitter));
  }

  /** Whatever the attempt, initial delay, multiplier and jitter, the exponential delay lies between 0 and max. */
  lemma ExponentialCapped(attempt: int, initial: int, max: int, multiplier: real, jitter: real, draw: real)
    requires max >= 0 && 0.0 <= draw < 1.0
    ensures 0 <= Exponential(attempt, initial, max, multiplier, jitter, draw) <= max
  {
    CappedBounds(Times(initial as real, Power(multiplier, Min(Max(attempt, 0), 30))), max);
    JitteredRange(Unjittered(attempt, initial, max, multiplier), max, Clamp(jitter), draw);
  }

  /**
   The exponential delay lies between the delay before jitter and that much more than it as jitter, clamped, allows.
   */
  lemma ExponentialRange(attempt: int, initial: int, max: int, multiplier: real, jitter: real, draw: real)
    requires 0 < initial <= max && multiplier >= 1.0 && 0.0 <= draw < 1.0
    ensures var b := Unjittered(attempt, initial, max, multiplier);
            var r := Exponential(attempt, initial, max, multiplier, jitter, draw);
            && initial <= b <= r <= max
            && r == Min(b + Times(Times(b as real, Clamp(jitter)), draw).Floor, max)
            && r as real <= b as real + Times(b as real, Clamp(jitter))
            && (draw == 0.0 || jitter <= 0.0 ==> r == b)
  {
    UnjitteredGrows(attempt, attempt, initial, max, multiplier);
    JitteredRange(Unjittered(attempt, initial, max, multiplier), max, Clamp(jitter), draw);
  }

  lemma BetweenRange(base: real, span: real, draw: real)
    requires 0.0 <= span && 0.0 <= draw < 1.0
    ensures base <= Between(base, base + span, draw) <= base + span
  {
    MulBounds(span, draw);
  }

  lemma CappedBelow(initial: int, raw: real, top: real, max: int)
    requires 0 < initial && initial as real <= raw <= top <= max as real
    ensures initial <= Capped(raw, max) <= max && Capped(raw, max) == raw.Floor
  {
  }

  /**
   The decorrelated delay lies in [initial, max], drawn from a range whose top grows threefold with each attempt up to
   max.
   */
  lemma DecorrelatedRange(attempt: int, initial: int, max: int, draw: real)
    requires 0 < initial <= max && 0.0 <= draw < 1.0
    ensures initial <= Decorrelated(attempt, initial, max, draw) <= max
    ensures attempt > 0 ==>
              var grown := Times(initial as real, Power(3.0, Min(attempt, 10)));
              && Upper(attempt, initial, max) == (if grown < max as real then grown else max as real)
              && Decorrelated(attempt, initial, max, draw)
                 == Between(initial as real, Upper(attempt, initial, max), draw).Floor
  {
    if attempt > 0 {
      var top := Upper(attempt, initial, max);
      RawGrows(initial, 3.0, 0, Min(attempt, 10));
      TopBounds(initial as real, Times(initial as real, Power(3.0, Min(attempt, 10))), max as real);
      BetweenRange(initial as real, top - initial as real, draw);
      CappedBelow(initial, Between(initial as real, top, draw), top, max);
    }
  }

  lemma TopBounds(base: real, raw: real, max: real)
    requires 0.0 <= base <= raw && base <= max
    ensures base <= Top(base, raw, max) <= max && Top(base, raw, max) == if raw < max then raw else max
  {
  }

  /**
   Every delay is within max exactly if initial is: the first decorrelated delay is initial, later ones are capped.
   */
  lemma DecorrelatedCapped(attempt: int, initial: int, max: int, draw: real)
    ensures Decorrelated(attempt, initial, max, draw) <= max <==> attempt > 0 || initial <= max
  {
  }

  // ---------- growth ----------

  /** What the power is: the base at 1, and a product at every sum. */
  lemma {:induction false} PowerLaw(base: real, m: nat, n: nat)
    ensures Power(base, 0) == 1.0 && Power(base, 1) == base
    ensures Power(base, m + n) == Power(base, m) * Power(base, n)
    decreases n
  {
    if n > 0 {
      PowerLaw(base, m, n - 1);
      Associate(Power(base, m), Power(base, n - 1), base);
    }
  }

  lemma Associate(x: real, y: real, z: real)
    ensures Times(Times(x, y), z) == x * Times(y, z)
  {
  }

  lemma {:induction false} PowerOfTwo(n: nat)
    ensures Power(2.0, n) == Pow2(n) as real
  {
    if n > 0 { PowerOfTwo(n - 1); }
  }

  /** Powers of a whole number are whole. */
  lemma {:induction false} WholePower(k: int, n: nat) returns (p: int)
    requires k >= 1
    ensures p >= 1 && Power(k as real, n) == p as real && Power(k as real, n + 1) == (k * p) as real
  {
    if n == 0 {
      p := 1;
    } else {
      var q := WholePower(k, n - 1);
      WholeProduct(k, q);
      p := k * q;
    }
    WholeProduct(k, p);
    assert Power(k as real, n + 1) == Times(p as real, k as real);
  }

  lemma WholeProduct(a: int, b: int)
    ensures Times(b as real, a as real) == (a * b) as real && Times(a as real, b as real) == (a * b) as real
    ensures a >= 1 && b >= 1 ==> a * b >= 1
  {
    if a >= 1 && b >= 1 { MulMonotone(1, a, b); }
  }

  lemma WholeCapped(x: int, max: int)
    requires x >= 0 && max >= 0
    ensures Capped(x as real, max) == Min(x, max)
  {
  }

  /** Cutting off before or after multiplying makes no difference in the end. */
  lemma CutAndMultiply(x: int, k: int, max: int)
    requires x >= 1 && k >= 1 && max >= 1
    ensures Min(k * Min(x, max), max) == Min(k * x, max)
  {
    if x > max {
      MulMonotone(1, k, max);
      MulMonotone(1, k, x);
    }
  }

  lemma UnjitteredWhole(attempt: nat, initial: int, max: int, k: int, p: int, x: int)
    requires attempt <= 30 && 1 <= initial <= max && p >= 1 && Power(k as real, attempt) == p as real
    requires x == initial * p
    ensures x >= 1 && Unjittered(attempt, initial, max, k as real) == Min(x, max)
  {
    WholeProduct(initial, p);
    WholeCapped(x, max);
  }

  lemma WholeNext(initial: int, k: int, p: int) returns (x: int, y: int)
    requires initial >= 1 && k >= 1 && p >= 1
    ensures x == initial * p && y == initial * (k * p) && y == k * x && x >= 1 && k * p >= 1
  {
    x, y := initial * p, initial * (k * p);
    WholeProduct(initial, p);
    WholeProduct(k, p);
    assert initial * (k * p) == k * (initial * p);
  }

  lemma NextMultiplies(attempt: nat, initial: int, max: int, k: int)
    requires 1 <= initial <= max && k >= 1 && attempt < 30
    ensures Unjittered(attempt + 1, initial, max, k as real)
            == Min(k * Unjittered(attempt, initial, max, k as real), max)
  {
    var p := WholePower(k, attempt);
    var x, y := WholeNext(initial, k, p);
    UnjitteredWhole(attempt, initial, max, k, p, x);
    UnjitteredWhole(attempt + 1, initial, max, k, k * p, y);
    CutAndMultiply(x, k, max);
  }

  /**
   Each attempt up to the 30th waits k times as long as the one before, before jitter, until max is reached; the first
   one waits for the initial delay, and there is no growth after the 30th.
   */
  lemma UnjitteredMultiplies(attempt: int, initial: int, max: int, k: int)
    requires 1 <= initial <= max && k >= 1
    ensures attempt <= 0 ==> Unjittered(attempt, initial, max, k as real) == initial
    ensures 0 <= attempt < 30 ==>
              Unjittered(attempt + 1, initial, max, k as real)
              == Min(k * Unjittered(attempt, initial, max, k as real), max)
    ensures attempt >= 30 ==>
              Unjittered(attempt, initial, max, k as real) == Unjittered(30, initial, max, k as real)
  {
    if attempt <= 0 { UnjitteredWhole(0, initial, max, k, 1, initial); }
    if 0 <= attempt < 30 { NextMultiplies(attempt, initial, max, k); }
  }

  /** So the whole delay, when there is no jitter: initial, then k times as much each time, and never more than max. */
  lemma ExponentialMultiplies(attempt: int, initial: int, max: int, k: int, draw: real)
    requires 1 <= initial <= max && k >= 1
    ensures attempt <= 0 ==> Exponential(attempt, initial, max, k as real, 0.0, draw) == initial
    ensures 0 <= attempt < 30 ==>
              Exponential(attempt + 1, initial, max, k as real, 0.0, draw)
              == Min(k * Exponential(attempt, initial, max, k as real, 0.0, draw), max)
  {
    UnjitteredMultiplies(attempt, initial, max, k);
  }

  function Lesser(x: real, y: real): real {
    if x < y then x else y
  }

  lemma UpperAt(attempt: int, initial: int, max: int, grown: real)
    requires 1 <= initial <= max && attempt >= 1 && grown == Times(initial as real, Power(3.0, Min(attempt, 10)))
    ensures grown >= 1.0 && Upper(attempt, initial, max) == Lesser(grown, max as real)
  {
    RawGrows(initial, 3.0, 0, Min(attempt, 10));
    TopBounds(initial as real, grown, max as real);
  }

  lemma LesserTriple(x: real, max: real)
    requires x >= 0.0 && max >= 0.0
    ensures Lesser(3.0 * x, max) == Lesser(3.0 * Lesser(x, max), max)
  {
  }

  lemma GrownTriples(initial: real, n: nat)
    ensures Times(initial, Power(3.0, 1)) == 3.0 * initial
    ensures Times(initial, Power(3.0, n + 1)) == 3.0 * Times(initial, Power(3.0, n))
  {
    PowerLaw(3.0, 0, 1);
    Associate(initial, Power(3.0, n), 3.0);
  }

  /** The range of a decorrelated delay reaches to three times initial, then three times as far each time up to max. */
  lemma UpperTriples(attempt: int, initial: int, max: int)
    requires 1 <= initial <= max && attempt >= 1
    ensures Upper(1, initial, max) == Lesser(3.0 * initial as real, max as real)
    ensures attempt < 10 ==>
              Upper(attempt + 1, initial, max) == Lesser(3.0 * Upper(attempt, initial, max), max as real)
    ensures attempt >= 10 ==> Upper(attempt, initial, max) == Upper(10, initial, max)
  {
    var x := initial as real;
    GrownTriples(x, Min(attempt, 10));
    UpperAt(1, initial, max, Times(x, Power(3.0, 1)));
    if attempt < 10 {
      var grown := Times(x, Power(3.0, attempt));
      UpperAt(attempt, initial, max, grown);
      UpperAt(attempt + 1, initial, max, Times(x, Power(3.0, attempt + 1)));
      LesserTriple(grown, max as real);
    }
  }

  /** A decorrelated delay is initial and the drawn part of the gap between it and the top of its range. */
  lemma DecorrelatedMeaning(attempt: int, initial: int, max: int, draw: real, gap: real)
    requires 1 <= initial <= max && 0.0 <= draw < 1.0
    requires attempt > 0 ==> gap == Upper(attempt, initial, max) - initial as real
    ensures attempt <= 0 ==> Decorrelated(attempt, initial, max, draw) == initial
    ensures attempt > 0 ==> Decorrelated(attempt, initial, max, draw) == (initial as real + draw * gap).Floor
  {
    DecorrelatedRange(attempt, initial, max, draw);
    if attempt > 0 {
      assert Between(initial as real, Upper(attempt, initial, max), draw) == initial as real + Times(draw, gap);
    }
  }

  lemma Product(x: real, y: real, z: real)
    ensures Times(Times(x, y), z) == x * y * z
  {
  }

  /** An exponential one is the delay before jitter and the drawn part of the fraction of it that is jitter. */
  lemma ExponentialMeaning(attempt: int, initial: int, max: int, multiplier: real, jitter: real, draw: real, b: int)
    requires 1 <= initial <= max && multiplier >= 1.0 && 0.0 <= draw < 1.0
    requires b == Unjittered(attempt, initial, max, multiplier)
    ensures Exponential(attempt, initial, max, multiplier, jitter, draw)
            == Min(b + (b as real * Clamp(jitter) * draw).Floor, max)
  {
    ExponentialRange(attempt, initial, max, multiplier, jitter, draw);
    Product(b as real, Clamp(jitter), draw);
  }

  /** The strategy in force decides: the decorrelated one, and for any other number the exponential one. */
  lemma StrategyDecides(attempt: int, s: Settings, draw: real, code: int)
    ensures Delay(ExponentialJitter, attempt, s, draw) == Delay(OtherStrategy(code), attempt, s, draw)
            == Exponential(attempt, s.initialBackoff, s.maxBackoff, s.backoffMultiplier, s.jitter, draw)
    ensures Delay(DecorrelatedJitter, attempt, s, draw)
            == Decorrelated(attempt, s.initialBackoff, s.maxBackoff, draw)
  {
  }
}
