/**
  Degree arithmetic for the ISO dial, on exact reals.

  The dial keeps an unbounded accumulated rotation. Before it is mapped to a
  selection it is reduced with the floating-point truncating remainder by 360
  (the result keeps the sign of the dividend) and a negative remainder is then
  lifted by one full turn, so that the angle lands in [0, 360).
 */
module Angles {

  /** Degrees in one full turn of the dial. */
  const FullTurn: real := 360.0

  /** `v` is a whole number of full turns (a multiple of 360 degrees). */
  predicate IsWholeTurns(v: real) {
    v == FullTurn * ((v / FullTurn).Floor as real)
  }

  /** Rounds toward zero, as the truncating quotient of a floating-point
      remainder does. */
  function Trunc(x: real): (n: int)
    ensures 0.0 <= x ==> 0.0 <= n as real <= x < n as real + 1.0
    ensures x < 0.0 ==> x <= n as real <= 0.0 && n as real - 1.0 < x
  {
    if x >= 0.0 then x.Floor else -((-x).Floor)
  }

  /** The truncating remainder of `x` by a full turn: what is left after
      taking away as many whole turns as fit, rounding the count toward zero. */
  function Remainder(x: real): (r: real)
    ensures -FullTurn < r < FullTurn
    ensures 0.0 <= x ==> 0.0 <= r
    ensures x <= 0.0 ==> r <= 0.0
    ensures IsWholeTurns(x - r)
  {
    var q := Trunc(x / FullTurn);
    var r := x - FullTurn * q as real;
    assert (x - r) / FullTurn == q as real;
    r
  }

  /** The remainder moved into [0, 360): a negative remainder gets one full
      turn added. */
  function Adjusted(x: real): (a: real)
    ensures 0.0 <= a < FullTurn
    ensures IsWholeTurns(x - a)
  {
    var n := Remainder(x);
    if n < 0.0 then
      var a := n + FullTurn;
      assert (x - a) / FullTurn == (x - n) / FullTurn - 1.0;
      a
    else
      n
  }

  /** Two angles in [0, 360) that differ by whole turns are the same angle. */
  lemma WholeTurnsInOneTurn(a: real, b: real)
    requires 0.0 <= a < FullTurn && 0.0 <= b < FullTurn
    requires IsWholeTurns(a - b)
    ensures a == b
  {
  }

  /** The adjusted angle is the unique angle in [0, 360) that differs from
      `x` by whole turns. */
  lemma AdjustedUnique(x: real, a: real)
    requires 0.0 <= a < FullTurn
    requires IsWholeTurns(x - a)
    ensures Adjusted(x) == a
  {
    var b := Adjusted(x);
    var kb := ((x - b) / FullTurn).Floor;
    var ka := ((x - a) / FullTurn).Floor;
    assert a - b == FullTurn * (kb - ka) as real;
    assert ((a - b) / FullTurn).Floor == kb - ka;
    WholeTurnsInOneTurn(a, b);
  }

  /** Truncating remainder followed by the fix-up agrees with the floored
      modulus `x - 360 * floor(x / 360)`. */
  lemma AdjustedIsFlooredModulus(x: real)
    ensures Adjusted(x) == x - FullTurn * ((x / FullTurn).Floor as real)
  {
    var m := x - FullTurn * ((x / FullTurn).Floor as real);
    assert 0.0 <= m < FullTurn;
    assert (x - m) / FullTurn == (x / FullTurn).Floor as real;
    AdjustedUnique(x, m);
  }

  /** Adding whole turns does not change the adjusted angle. */
  lemma AdjustedPeriodic(x: real, k: int)
    ensures Adjusted(x + FullTurn * k as real) == Adjusted(x)
  {
    var a := Adjusted(x);
    var y := x + FullTurn * k as real;
    var j := ((x - a) / FullTurn).Floor;
    assert (y - a) / FullTurn == (j + k) as real;
    AdjustedUnique(y, a);
  }

  /** Two angles have the same adjusted angle exactly when they differ by
      whole turns. */
  lemma AdjustedEqualIff(x: real, y: real)
    ensures Adjusted(x) == Adjusted(y) <==> IsWholeTurns(x - y)
  {
    if Adjusted(x) == Adjusted(y) {
      SameAdjustedIsWholeTurns(x, y);
    } else if IsWholeTurns(x - y) {
      WholeTurnsSameAdjusted(x, y);
    }
  }

  lemma SameAdjustedIsWholeTurns(x: real, y: real)
    requires Adjusted(x) == Adjusted(y)
    ensures IsWholeTurns(x - y)
  {
    var a := Adjusted(x);
    var kx := ((x - a) / FullTurn).Floor;
    var ky := ((y - a) / FullTurn).Floor;
    assert x - y == FullTurn * (kx - ky) as real;
    MultipleIsWholeTurns(kx - ky);
  }

  /** Any integer multiple of a full turn is whole turns. */
  lemma MultipleIsWholeTurns(k: int)
    ensures IsWholeTurns(FullTurn * k as real)
  {
  }

  lemma WholeTurnsSameAdjusted(x: real, y: real)
    requires IsWholeTurns(x - y)
    ensures Adjusted(x) == Adjusted(y)
  {
    var k := ((x - y) / FullTurn).Floor;
    assert x == y + FullTurn * k as real;
    AdjustedPeriodic(y, k);
  }
}
