/**
 The shard count and shard choice of cache_optimized.go: nextPowerOf2 and the masking of a hash. Non-negative machine
 words are naturals, with the bit operations defined on their binary digits.
 */
module ShardIndex {
  import opened Base

  predicate Bit(x: nat, i: nat)
    decreases i
  {
    if i == 0 then x % 2 == 1 else Bit(x / 2, i - 1)
  }

  /** x >> k */
  function Shr(x: nat, k: nat): nat
    decreases k
  {
    if k == 0 then x else Shr(x / 2, k - 1)
  }

  /** a | b */
  function Or(a: nat, b: nat): nat {
    if a == 0 then b
    else (if a % 2 == 1 || b % 2 == 1 then 1 else 0) + 2 * Or(a / 2, b / 2)
  }

  /** a & b */
  function And(a: nat, b: nat): nat {
    if a == 0 then 0
    else (if a % 2 == 1 && b % 2 == 1 then 1 else 0) + 2 * And(a / 2, b / 2)
  }

  lemma {:induction false} BitZero(i: nat)
    ensures !Bit(0, i)
  {
    if i > 0 { BitZero(i - 1); }
  }

  lemma {:induction false} BitOr(a: nat, b: nat, i: nat)
    ensures Bit(Or(a, b), i) <==> Bit(a, i) || Bit(b, i)
    decreases i
  {
    if a == 0 {
      BitZero(i);
    } else if i > 0 {
      BitOr(a / 2, b / 2, i - 1);
    }
  }

  lemma {:induction false} BitShr(x: nat, k: nat, i: nat)
    ensures Bit(Shr(x, k), i) <==> Bit(x, i + k)
    decreases k
  {
    if k > 0 { BitShr(x / 2, k - 1, i); }
  }

  lemma {:induction false} SameBits(a: nat, b: nat)
    requires forall i: nat :: Bit(a, i) <==> Bit(b, i)
    ensures a == b
    decreases a + b
  {
    if a + b > 0 {
      assert Bit(a, 0) <==> Bit(b, 0);
      forall i: nat
        ensures Bit(a / 2, i) <==> Bit(b / 2, i)
      {
        assert Bit(a, i + 1) <==> Bit(b, i + 1);
      }
      SameBits(a / 2, b / 2);
    }
  }

  lemma {:induction false} BitOnes(k: nat, i: nat)
    ensures Bit(Pow2(k) - 1, i) <==> i < k
    decreases i
  {
    if k == 0 {
      BitZero(i);
    } else if i > 0 {
      BitOnes(k - 1, i - 1);
      assert (Pow2(k) - 1) / 2 == Pow2(k - 1) - 1;
    }
  }

  // ---------- nextPowerOf2 ----------

  /** The position of the leading one of x. */
  function Top(x: nat): nat
    requires x > 0
  {
    if x == 1 then 0 else 1 + Top(x / 2)
  }

  lemma {:induction false} TopBounds(x: nat)
    requires x > 0
    ensures Pow2(Top(x)) <= x < Pow2(Top(x) + 1)
  {
    if x > 1 { TopBounds(x / 2); }
  }

  lemma {:induction false} TopBit(x: nat, i: nat)
    requires x > 0
    ensures i > Top(x) ==> !Bit(x, i)
    ensures i == Top(x) ==> Bit(x, i)
    decreases x
  {
    if x == 1 {
      if i > 0 { BitZero(i - 1); }
    } else if i > 0 {
      TopBit(x / 2, i - 1);
    }
  }

  lemma {:induction false} Pow2Monotone(a: nat, b: nat)
    ensures a < b <==> Pow2(a) < Pow2(b)
    decreases a + b
  {
    if a > 0 && b > 0 { Pow2Monotone(a - 1, b - 1); }
  }

  /** Some bit of x among the w positions from i up is set. */
  ghost predicate Near(x: nat, w: nat, i: nat) {
    exists p: nat :: i <= p < i + w && Bit(x, p)
  }

  /** y has exactly the bits of x, each spread down over w positions. */
  ghost predicate Spread(x: nat, y: nat, w: nat) {
    forall i: nat :: Bit(y, i) <==> Near(x, w, i)
  }

  lemma SpreadOnce(x: nat)
    ensures Spread(x, x, 1)
  {
  }

  /** One step n |= n >> w doubles the spread. */
  lemma SpreadStep(x: nat, y: nat, w: nat)
    requires Spread(x, y, w)
    ensures Spread(x, Or(y, Shr(y, w)), 2 * w)
  {
    forall i: nat
      ensures Bit(Or(y, Shr(y, w)), i) <==> Near(x, 2 * w, i)
    {
      BitOr(y, Shr(y, w), i);
      BitShr(y, w, i);
      assert Near(x, 2 * w, i) <==> Near(x, w, i) || Near(x, w, i + w);
    }
  }

  /** Below the leading one of x there is no run of w zeros. */
  ghost predicate NoGap(x: nat, w: nat)
    requires x > 0
  {
    forall i: nat :: i <= Top(x) ==> Near(x, w, i)
  }

  lemma SpreadTop(x: nat, y: nat)
    requires x > 0 && Spread(x, y, 32)
    ensures Bit(y, Top(x)) && forall i: nat :: Bit(y, i) ==> i <= Top(x)
  {
    TopBit(x, Top(x));
    assert Near(x, 32, Top(x));
    forall i: nat | Bit(y, i)
      ensures i <= Top(x)
    {
      var p: nat :| i <= p < i + 32 && Bit(x, p);
      TopBit(x, p);
    }
  }

  lemma SpreadFills(x: nat, y: nat)
    requires x > 0 && Spread(x, y, 32) && NoGap(x, 32)
    ensures y == Pow2(Top(x) + 1) - 1
  {
    SpreadTop(x, y);
    var ones := Pow2(Top(x) + 1) - 1;
    forall i: nat
      ensures Bit(y, i) <==> Bit(ones, i)
    {
      BitOnes(Top(x) + 1, i);
    }
    SameBits(y, ones);
  }

  lemma OnesFill(x: nat, y: nat, k: nat)
    requires x > 0 && Spread(x, y, 32) && y == Pow2(k) - 1
    ensures NoGap(x, 32)
  {
    SpreadTop(x, y);
    BitOnes(k, Top(x));
    forall i: nat | i <= Top(x)
      ensures Near(x, 32, i)
    {
      BitOnes(k, i);
      assert Bit(y, i);
    }
  }

  ghost predicate LeastPowerOf2(r: int, n: int) {
    && (exists k: nat :: r == Pow2(k))
    && n <= r
    && forall k: nat :: n <= Pow2(k) ==> r <= Pow2(k)
  }

  /**
   nextPowerOf2. For n up to 2^32 the result is the least power of two that is not below n. Beyond that the missing
   shift by 32 shows: the result is right exactly when n-1 has no 32 zeros in a row below its leading one.
   */
  method NextPowerOf2(n: int) returns (r: int)
    ensures r >= 1 && (n <= 1 ==> r == 1)
    ensures n <= 0x1_0000_0000 ==> LeastPowerOf2(r, Max(1, n))
    ensures n > 1 ==> (LeastPowerOf2(r, n) <==> NoGap(n - 1, 32))
  {
    if n <= 1 {
      assert Pow2(0) == 1;
      return 1;
    }
    var x: nat := n - 1;
    SpreadOnce(x);
    var y := Or(x, Shr(x, 1));
    SpreadStep(x, x, 1);
    var s := y;
    y := Or(y, Shr(y, 2));
    SpreadStep(x, s, 2);
    s := y;
    y := Or(y, Shr(y, 4));
    SpreadStep(x, s, 4);
    s := y;
    y := Or(y, Shr(y, 8));
    SpreadStep(x, s, 8);
    s := y;
    y := Or(y, Shr(y, 16));
    SpreadStep(x, s, 16);
    r := y + 1;
    Rounded(x, y);
    if n <= 0x1_0000_0000 { ShortHasNoGap(x); }
  }

  lemma Rounded(x: nat, y: nat)
    requires x > 0 && Spread(x, y, 32)
    ensures LeastPowerOf2(y + 1, x + 1) <==> NoGap(x, 32)
  {
    if NoGap(x, 32) { SpreadFills(x, y); }
    TopBounds(x);
    forall k: nat | x + 1 <= Pow2(k)
      ensures Pow2(Top(x) + 1) <= Pow2(k)
    {
      Pow2Monotone(Top(x), k);
      Pow2Monotone(k, Top(x) + 1);
    }
    if LeastPowerOf2(y + 1, x + 1) {
      var k: nat :| y + 1 == Pow2(k);
      OnesFill(x, y, k);
    }
  }

  lemma ShortHasNoGap(x: nat)
    requires 0 < x < 0x1_0000_0000
    ensures NoGap(x, 32)
  {
    TopBounds(x);
    assert Pow2(32) == 0x1_0000_0000 by { Pow2Values(); }
    Pow2Monotone(Top(x), 32);
    forall i: nat | i <= Top(x)
      ensures Near(x, 32, i)
    {
      TopBit(x, Top(x));
    }
  }

  lemma Pow2Values()
    ensures Pow2(8) == 0x100 && Pow2(16) == 0x1_0000 && Pow2(32) == 0x1_0000_0000
  {
    Pow2Add(8, 8);
    Pow2Add(16, 16);
  }

  lemma {:induction false} Pow2Add(a: nat, b: nat)
    ensures Pow2(a + b) == Pow2(a) * Pow2(b)
  {
    if a > 0 { Pow2Add(a - 1, b); }
  }

  // ---------- masking ----------

  /** The mask keeps the bits that both have. */
  lemma {:induction false} BitAnd(a: nat, b: nat, i: nat)
    ensures Bit(And(a, b), i) <==> Bit(a, i) && Bit(b, i)
    decreases i
  {
    if a == 0 {
      BitZero(i);
    } else if i > 0 {
      BitAnd(a / 2, b / 2, i - 1);
    }
  }

  lemma AndOdd(h: nat, q: nat)
    ensures And(h, 2 * q + 1) == h % 2 + 2 * And(h / 2, q)
  {
  }

  lemma {:induction false} AndOnes(h: nat, k: nat)
    ensures And(h, Pow2(k) - 1) == h % Pow2(k)
    decreases k
  {
    if k == 0 {
      AndZero(h);
    } else {
      var p := Pow2(k - 1);
      AndOnes(h / 2, k - 1);
      AndOdd(h, p - 1);
      HalveMod(h, p);
    }
  }

  lemma {:induction false} AndZero(h: nat)
    ensures And(h, 0) == 0
  {
    if h > 0 { AndZero(h / 2); }
  }

  lemma HalveMod(h: nat, p: nat)
    requires p > 0
    ensures h % (2 * p) == h % 2 + 2 * ((h / 2) % p)
  {
    var q, r := (h / 2) / p, (h / 2) % p;
    assert h / 2 == q * p + r;
    assert h == q * (2 * p) + (h % 2 + 2 * r);
    DivUnique(h, 2 * p, q, h % 2 + 2 * r);
  }

  lemma {:induction false} AndBelow(h: nat, m: nat)
    ensures And(h, m) <= m
    decreases h
  {
    if h > 0 { AndBelow(h / 2, m / 2); }
  }

  /** getShard masks the hash with count - 1, which is in range whatever the count. */
  function Index(hash: nat, count: nat): (i: nat)
    requires count > 0
    ensures i < count
  {
    AndBelow(hash, count - 1);
    And(hash, count - 1)
  }

  /** Whatever the count, the index has the bits of the hash that count - 1 has too. */
  lemma IndexBits(hash: nat, count: nat, i: nat)
    requires count > 0
    ensures Bit(Index(hash, count), i) <==> Bit(hash, i) && Bit(count - 1, i)
  {
    BitAnd(hash, count - 1, i);
  }

  /** With a power-of-two shard count, masking the hash with count - 1 is taking it modulo count. */
  lemma MaskIsModulo(hash: nat, count: nat, n: int)
    requires count > 0 && LeastPowerOf2(count, n)
    ensures Index(hash, count) == hash % count
  {
    var k: nat :| count == Pow2(k);
    AndOnes(hash, k);
  }

  /** For n = 2^32 + 1 there is such a gap, so the result of NextPowerOf2 is not the least power of two. */
  lemma MissingShift()
    ensures !NoGap(0x1_0000_0000, 32)
  {
    Pow2Values();
    TopBounds(0x1_0000_0000);
    Pow2Monotone(32, Top(0x1_0000_0000));
    Pow2Monotone(32, Top(0x1_0000_0000) + 1);
    assert Top(0x1_0000_0000) == 32;
    if Near(0x1_0000_0000, 32, 0) {
      var p: nat :| p < 32 && Bit(0x1_0000_0000, p);
      LowBitsZero(32, p);
    }
  }

  lemma {:induction false} LowBitsZero(k: nat, i: nat)
    requires i < k
    ensures !Bit(Pow2(k), i)
    decreases i
  {
    if i > 0 { LowBitsZero(k - 1, i - 1); }
  }
}
