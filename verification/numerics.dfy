/** Real-number stand-ins for the f64 operations the engine uses.

    The transcendental functions are not defined here: they are fields of an
    `Fns` record that every operation needing them takes as a parameter. Each
    property that depends on one of them requires only the law it needs
    (`TrigAtZero`, `CosSquaredAtMostOne`, `Pythagorean`, `SqrtLaws`,
    `LnLaws`), so
    nothing is assumed about `sin`, `cos`, `sqrt` or `ln` beyond what a
    statement actually uses. */
module Numerics {

  /** The library functions `f64::sin`, `cos`, `sqrt` and `ln`. */
  datatype Fns = Fns(sin: real -> real, cos: real -> real, sqrt: real -> real, ln: real -> real)

  /** sin 0 = 0 and cos 0 = 1. */
  predicate TrigAtZero(m: Fns) {
    m.sin(0.0) == 0.0 && m.cos(0.0) == 1.0
  }

  /** cos x squared never exceeds one. */
  ghost predicate CosSquaredAtMostOne(m: Fns) {
    forall x: real :: m.cos(x) * m.cos(x) <= 1.0
  }

  /** sin x squared plus cos x squared is one. */
  ghost predicate Pythagorean(m: Fns) {
    forall x: real :: m.sin(x) * m.sin(x) + m.cos(x) * m.cos(x) == 1.0
  }

  /** sqrt 0 = 0, sqrt is non-negative on non-negative arguments, and it is
      strictly increasing there. */
  ghost predicate SqrtLaws(m: Fns) {
    && m.sqrt(0.0) == 0.0
    && (forall x: real :: 0.0 <= x ==> 0.0 <= m.sqrt(x))
    && (forall x: real, y: real :: 0.0 <= x < y ==> m.sqrt(x) < m.sqrt(y))
  }

  /** ln 1 = 0, and ln is strictly increasing on the positive reals. */
  ghost predicate LnLaws(m: Fns) {
    && m.ln(1.0) == 0.0
    && (forall x: real, y: real :: 0.0 < x < y ==> m.ln(x) < m.ln(y))
  }

  /** The exact rational value of the f64 constant `std::f64::consts::PI`. */
  const PI: real := 3.141592653589793115997963468544185161590576171875
  const TWO_PI: real := 2.0 * PI

  function Abs(x: real): (r: real)
    ensures 0.0 <= r && (r == x || r == -x)
  {
    if x < 0.0 then -x else x
  }

  /** `f64::max`, NaN aside. */
  function Max(a: real, b: real): (r: real)
    ensures a <= r && b <= r && (r == a || r == b)
  {
    if a < b then b else a
  }

  /** `f64::min`, NaN aside. */
  function Min(a: real, b: real): (r: real)
    ensures r <= a && r <= b && (r == a || r == b)
  {
    if b < a then b else a
  }

  /** `Min` over naturals, for index arithmetic that needs a `nat` result;
      proof plumbing, not a separate concept. */
  function MinNat(a: nat, b: nat): (r: nat)
    ensures r <= a && r <= b && (r == a || r == b)
  {
    if b < a then b else a
  }

  /** `f64::signum` over the reals: zero counts as positive (+0.0). */
  function Signum(x: real): (r: real)
    ensures (r == 1.0 <==> 0.0 <= x) && (r == -1.0 <==> x < 0.0)
  {
    if x < 0.0 then -1.0 else 1.0
  }

  /** Rounding toward zero. */
  function Trunc(q: real): (t: int)
    ensures 0.0 <= q ==> 0 <= t && t as real <= q < t as real + 1.0
    ensures q < 0.0 ==> t <= 0 && t as real - 1.0 < q <= t as real
  {
    if 0.0 <= q then q.Floor else -((-q).Floor)
  }

  /** `x % (2.0 * PI)` on f64, over the reals: the remainder of a truncating
      division by a full turn, which takes the sign of the dividend. The
      divisor is a constant, so the arithmetic stays linear. */
  function RemTwoPi(x: real): (r: real)
    ensures 0.0 <= x ==> 0.0 <= r < TWO_PI
    ensures x < 0.0 ==> -TWO_PI < r <= 0.0
    ensures WholeTurns(x - r)
    ensures -TWO_PI < x < TWO_PI ==> r == x
  {
    var t := Trunc(x / TWO_PI);
    x - t as real * TWO_PI
  }

  /** d is an integer number of full turns. */
  predicate WholeTurns(d: real) {
    (d / TWO_PI).Floor as real == d / TWO_PI
  }

  /** Subtraction on `usize`, which panics on underflow: every use proves
      that the subtrahend does not exceed the minuend. */
  function USub(a: nat, b: nat): (r: nat)
    requires b <= a
    ensures r + b == a
  {
    a - b
  }

  /** A square is never negative. */
  lemma Square(x: real)
    ensures 0.0 <= x * x
  {
    if x < 0.0 {
      assert x * x == (-x) * (-x);
    }
  }

  lemma NonNegativeProduct(a: real, b: real)
    requires 0.0 <= a && 0.0 <= b
    ensures 0.0 <= a * b
  {
  }

  lemma PositiveProduct(a: real, b: real)
    requires 0.0 < a && 0.0 < b
    ensures 0.0 < a * b
  {
  }

  /** A quotient by a positive number is at least one exactly when the
      dividend is at least the divisor. */
  lemma RatioAtLeastOne(a: real, b: real)
    requires 0.0 < b
    ensures b <= a <==> 1.0 <= a / b
  {
    assert a == (a / b) * b;
  }

  /** `Iterator::sum` over f64: a left fold from zero. */
  function Sum(xs: seq<real>): real
  {
    if |xs| == 0 then 0.0 else Sum(xs[..|xs| - 1]) + xs[|xs| - 1]
  }

  /** The arithmetic mean, as the source computes it: the sum divided by the
      length converted to f64. */
  function Mean(xs: seq<real>): real
    requires 0 < |xs|
  {
    Sum(xs) / |xs| as real
  }

  /** A sum of n terms lies between n times a lower and n times an upper
      bound of its terms. */
  lemma {:induction false} SumBounds(xs: seq<real>, lo: real, hi: real)
    requires forall i :: 0 <= i < |xs| ==> lo <= xs[i] <= hi
    ensures |xs| as real * lo <= Sum(xs) <= |xs| as real * hi
  {
    if |xs| > 0 {
      var init := xs[..|xs| - 1];
      assert forall i :: 0 <= i < |init| ==> init[i] == xs[i];
      SumBounds(init, lo, hi);
    }
  }

  /** The sum of n copies of c is n times c. */
  lemma {:induction false} SumConstant(xs: seq<real>, c: real)
    requires forall i :: 0 <= i < |xs| ==> xs[i] == c
    ensures Sum(xs) == |xs| as real * c
  {
    SumBounds(xs, c, c);
  }

  /** A sum of non-negative terms is non-negative. */
  lemma {:induction false} SumNonNegative(xs: seq<real>)
    requires forall i :: 0 <= i < |xs| ==> 0.0 <= xs[i]
    ensures 0.0 <= Sum(xs)
  {
    if |xs| > 0 {
      var init := xs[..|xs| - 1];
      assert forall i :: 0 <= i < |init| ==> init[i] == xs[i];
      SumNonNegative(init);
    }
  }

  /** A sum of non-negative terms is zero only if every term is zero. */
  lemma {:induction false} SumNonNegativeZero(xs: seq<real>)
    requires forall i :: 0 <= i < |xs| ==> 0.0 <= xs[i]
    requires Sum(xs) == 0.0
    ensures forall i :: 0 <= i < |xs| ==> xs[i] == 0.0
  {
    if |xs| > 0 {
      var init := xs[..|xs| - 1];
      assert forall i :: 0 <= i < |init| ==> init[i] == xs[i];
      SumNonNegative(init);
      SumNonNegativeZero(init);
    }
  }

  /** The mean lies between any lower and any upper bound of the terms. */
  lemma MeanBetween(xs: seq<real>, lo: real, hi: real)
    requires 0 < |xs|
    requires forall i :: 0 <= i < |xs| ==> lo <= xs[i] <= hi
    ensures lo <= Mean(xs) <= hi
  {
    SumBounds(xs, lo, hi);
    var n := |xs| as real;
    DivideBounds(Sum(xs), n, lo, hi);
  }

  lemma DivideBounds(s: real, n: real, lo: real, hi: real)
    requires 0.0 < n && n * lo <= s <= n * hi
    ensures lo <= s / n <= hi
  {
    assert s == (s / n) * n;
  }
}
