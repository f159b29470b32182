/** Arithmetic on JavaScript numbers, modelled as exact reals. Every modulus and divisor the
    charts use is a literal, so these helpers fix it rather than take it as a parameter. */
module JsNumber {

  /** `Math.abs` */
  function Abs(x: real): (r: real)
    ensures r >= 0.0
    ensures r == x || r == -x
  {
    if x < 0.0 then -x else x
  }

  /** `Math.floor` */
  function Floor(x: real): (r: int)
    ensures r as real <= x < r as real + 1.0
  {
    x.Floor
  }

  /** Truncation toward zero, the quotient that JavaScript's `%` uses. */
  function Trunc(x: real): (r: int)
    ensures x >= 0.0 ==> r as real <= x < r as real + 1.0
    ensures x < 0.0 ==> r as real - 1.0 < x <= r as real
  {
    if x >= 0.0 then x.Floor else -((-x).Floor)
  }

  /** JavaScript's `x % 360`: the remainder keeps the sign of `x` and differs from `x`
      by a whole number of turns. */
  function Rem360(x: real): (r: real)
    ensures x >= 0.0 ==> 0.0 <= r < 360.0
    ensures x < 0.0 ==> -360.0 < r <= 0.0
    ensures x - r == 360.0 * Trunc(x / 360.0) as real
  {
    x - 360.0 * Trunc(x / 360.0) as real
  }

  /** A value already in [0, 360) is its own remainder. */
  lemma Rem360OfSmall(x: real)
    requires 0.0 <= x < 360.0
    ensures Rem360(x) == x
  {
  }

  /** A non-negative value and that value plus `k` whole turns have the same remainder. */
  lemma Rem360AddTurns(x: real, k: nat)
    requires x >= 0.0
    ensures Rem360(x + 360.0 * k as real) == Rem360(x)
  {
    var q := Trunc(x / 360.0);
    assert Trunc((x + 360.0 * k as real) / 360.0) == q + k;
  }

  /** The remainder of a non-negative value is the unique point of [0, 360) a whole number
      of turns below it. */
  lemma Rem360Unique(x: real, r: real, k: int)
    requires x >= 0.0 && 0.0 <= r < 360.0 && x == r + 360.0 * k as real
    ensures Rem360(x) == r
  {
    assert Trunc(x / 360.0) == k;
  }

  /** `Math.floor(x / 30)`, the index of the 30-degree sign a longitude falls in, is `k`
      exactly when `30k <= x < 30k + 30`. */
  lemma SignFloorChar(x: real, k: int)
    ensures Floor(x / 30.0) == k <==> 30.0 * k as real <= x < 30.0 * k as real + 30.0
  {
  }
}
