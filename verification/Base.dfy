/** Small definitions shared by every component model. */
module Base {

  datatype Option<+T> = None | Some(value: T)

  /** A second, in nanoseconds. */
  const SECOND := 1_000_000_000

  function Max(a: int, b: int): int {
    if a >= b then a else b
  }

  function Min(a: int, b: int): int {
    if a <= b then a else b
  }

  /** Integer division as Go defines it: the quotient is truncated toward zero. */
  function GoDiv(a: int, b: int): int
    requires b > 0
  {
    if a >= 0 then a / b else -((-a) / b)
  }

  function Pow2(k: nat): (p: nat)
    ensures p > 0
  {
    if k == 0 then 1 else 2 * Pow2(k - 1)
  }

  lemma MulMonotone(a: int, b: int, d: int)
    requires a <= b && d >= 0
    ensures a * d <= b * d
  {
    assert (b - a) * d >= 0;
  }

  /** Quotient and remainder are the only numbers that fit. */
  lemma DivUnique(x: int, d: int, q: int, r: int)
    requires d > 0 && 0 <= r < d && x == q * d + r
    ensures x / d == q && x % d == r
  {
    var q' := x / d;
    assert x == q' * d + x % d;
    if q < q' {
      MulMonotone(q + 1, q', d);
    } else if q' < q {
      MulMonotone(q' + 1, q, d);
    }
  }

  lemma DivMonotone(a: int, b: int, d: int)
    requires a <= b && d > 0
    ensures a / d <= b / d
  {
    assert a == (a / d) * d + a % d && b == (b / d) * d + b % d;
    assert (b / d + 1) * d == (b / d) * d + d;
    if b / d < a / d { MulMonotone(b / d + 1, a / d, d); }
  }

  ghost predicate NoDuplicates<T>(s: seq<T>) {
    forall i, j :: 0 <= i < j < |s| ==> s[i] != s[j]
  }

  ghost predicate NonDecreasing(s: seq<int>) {
    forall i, j :: 0 <= i < j < |s| ==> s[i] <= s[j]
  }

  /** The first position of x at or after start, or |s| when there is none. */
  function IndexFrom<T(==)>(s: seq<T>, x: T, start: nat): (i: nat)
    requires start <= |s|
    ensures i <= |s| && (i < |s| ==> s[i] == x)
    decreases |s| - start
  {
    if start == |s| || s[start] == x then start else IndexFrom(s, x, start + 1)
  }

  lemma {:induction false} IndexFromFirst<T>(s: seq<T>, x: T, start: nat)
    requires start <= |s|
    ensures start <= IndexFrom(s, x, start)
    ensures forall j :: start <= j < IndexFrom(s, x, start) ==> s[j] != x
    decreases |s| - start
  {
    if start < |s| && s[start] != x { IndexFromFirst(s, x, start + 1); }
  }

  function IndexOf<T(==)>(s: seq<T>, x: T): (i: nat)
    ensures i <= |s| && (i < |s| <==> x in s)
    ensures i < |s| ==> s[i] == x
  {
    IndexFromFirst(s, x, 0);
    IndexFrom(s, x, 0)
  }

  function Cut<T>(s: seq<T>, i: nat): seq<T>
    requires i < |s|
  {
    s[..i] + s[i + 1..]
  }

  /** s without its first occurrence of x. */
  function Without<T(==)>(s: seq<T>, x: T): seq<T> {
    var i := IndexOf(s, x);
    if i < |s| then Cut(s, i) else s
  }

  lemma CutAt<T>(s: seq<T>, i: nat)
    requires i < |s| && NoDuplicates(s)
    ensures NoDuplicates(Cut(s, i)) && s[i] !in Cut(s, i)
    ensures forall x :: x in Cut(s, i) ==> x in s
  {
  }

  /** Removing the only occurrence of x drops exactly x and keeps the others in order. */
  lemma WithoutElements<T>(s: seq<T>, x: T)
    requires x in s && NoDuplicates(s)
    ensures NoDuplicates(Without(s, x))
    ensures |Without(s, x)| == |s| - 1
    ensures forall y :: y in Without(s, x) <==> y in s && y != x
  {
  }

  /** s with x moved to the front. */
  function ToFront<T(==)>(s: seq<T>, x: T): seq<T> {
    [x] + Without(s, x)
  }

  lemma ToFrontElements<T>(s: seq<T>, x: T)
    requires x in s && NoDuplicates(s)
    ensures NoDuplicates(ToFront(s, x))
    ensures |ToFront(s, x)| == |s|
    ensures forall y :: y in ToFront(s, x) <==> y in s
  {
    WithoutElements(s, x);
    var w := Without(s, x);
    assert forall y :: y in [x] + w <==> y == x || y in w;
  }

  lemma {:induction false} CountElements<T>(s: seq<T>)
    requires NoDuplicates(s)
    ensures |set x | x in s| == |s|
  {
    if s != [] {
      CountElements(s[1..]);
      assert (set x | x in s) == {s[0]} + (set x | x in s[1..]);
    }
  }
}
