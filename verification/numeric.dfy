/** Numeric helpers shared by every component: the optional value that stands
    for a JavaScript figure that is absent or not finite, JavaScript's
    `Math.round`, `Math.min`, `Math.max` and `Math.abs` over exact reals, integer
    powers, and left-to-right sums (the order of `Array.prototype.reduce`). */
module Numeric {

  /** `None` stands for a value the source leaves undefined or computes as a
      non-finite number (a division by zero). */
  datatype Option<+T> = None | Some(value: T) {
    function GetOr(default: T): T {
      match this
      case Some(v) => v
      case None => default
    }
  }

  /** JavaScript's `Math.round`: halves round towards positive infinity. */
  function Round(x: real): (r: int)
    ensures r as real - 0.5 <= x < r as real + 0.5
  {
    (x + 0.5).Floor
  }

  /** `Math.round` is monotone. */
  lemma RoundMonotone(x: real, y: real)
    requires x <= y
    ensures Round(x) <= Round(y)
  {
  }

  /** `Math.round` leaves whole numbers unchanged. */
  lemma RoundOfInt(n: int)
    ensures Round(n as real) == n
  {
  }

  function Min(a: real, b: real): (r: real)
    ensures r <= a && r <= b
    ensures r == a || r == b
  {
    if a <= b then a else b
  }

  function Max(a: real, b: real): (r: real)
    ensures r >= a && r >= b
    ensures r == a || r == b
  {
    if a >= b then a else b
  }

  function Abs(x: real): (r: real)
    ensures r >= 0.0
    ensures r == x || r == -x
  {
    if x < 0.0 then -x else x
  }

  /** `Math.pow(x, n)` for a whole, non-negative exponent. */
  function Pow(x: real, n: nat): real
  {
    if n == 0 then 1.0 else Pow(x, n - 1) * x
  }

  /** A positive base has positive powers. */
  lemma {:induction false} PowPositive(x: real, n: nat)
    requires x > 0.0
    ensures Pow(x, n) > 0.0
  {
    if n > 0 {
      PowPositive(x, n - 1);
    }
  }

  /** Raising to a fixed power is monotone on non-negative bases. */
  lemma {:induction false} PowMonotone(x: real, y: real, n: nat)
    requires 0.0 <= x <= y
    ensures 0.0 <= Pow(x, n) <= Pow(y, n)
  {
    if n > 0 {
      PowMonotone(x, y, n - 1);
      MulMonotone(Pow(x, n - 1), x, Pow(y, n - 1), y);
    }
  }

  /** Products of non-negative factors grow with their factors. */
  lemma MulMonotone(a: real, b: real, c: real, d: real)
    requires 0.0 <= a <= c
    requires 0.0 <= b <= d
    ensures 0.0 <= a * b <= c * d
  {
    assert a * b <= c * b;
    assert c * b <= c * d;
  }

  /** A ratio of a part to a positive whole lies between 0 and 1. */
  lemma RatioWithinUnit(part: real, whole: real)
    requires 0.0 <= part <= whole && whole > 0.0
    ensures 0.0 <= part / whole <= 1.0
  {
    var q := part / whole;
    assert q * whole == part;
  }

  /** Any non-zero number divided by itself is 1. */
  lemma RatioOfItself(x: real)
    requires x != 0.0
    ensures x / x == 1.0
  {
  }

  /** The left-to-right sum of a sequence, as `reduce((s, x) => s + x, 0)`. */
  function Sum(xs: seq<real>): real
  {
    if xs == [] then 0.0 else Sum(xs[..|xs| - 1]) + xs[|xs| - 1]
  }

  /** Summing a concatenation sums the parts. */
  lemma {:induction false} SumAppend(xs: seq<real>, ys: seq<real>)
    ensures Sum(xs + ys) == Sum(xs) + Sum(ys)
    decreases |ys|
  {
    if ys == [] {
      assert xs + ys == xs;
    } else {
      var zs := xs + ys;
      assert zs[..|zs| - 1] == xs + ys[..|ys| - 1];
      SumAppend(xs, ys[..|ys| - 1]);
    }
  }

  /** Non-negative terms have a non-negative sum. */
  lemma {:induction false} SumNonNegative(xs: seq<real>)
    requires forall i :: 0 <= i < |xs| ==> xs[i] >= 0.0
    ensures Sum(xs) >= 0.0
  {
    if xs != [] {
      SumNonNegative(xs[..|xs| - 1]);
    }
  }

  /** Adding one more term to a prefix adds exactly that term. */
  lemma PrefixSumStep(xs: seq<real>, k: nat)
    requires k < |xs|
    ensures Sum(xs[..k + 1]) == Sum(xs[..k]) + xs[k]
  {
    assert xs[..k + 1][..k] == xs[..k];
  }
}
