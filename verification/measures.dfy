/** Rounding and the square-kilometre to acre conversion. Python's built-in
    `round` and numpy's rounding both round half to even; the model does the
    same on exact reals. */
module Measures {

  /** A whole number, as a real. */
  predicate Whole(x: real)
  {
    x.Floor as real == x
  }

  /** Acres in one square kilometre, as used by the conversion. */
  const AcresPerSquareKm: real := 247.11

  /** Round to the nearest integer, ties to the even neighbour. */
  function Round(x: real): (r: int)
    ensures -0.5 <= r as real - x <= 0.5
    ensures (r as real - x == 0.5 || x - r as real == 0.5) ==> r % 2 == 0
  {
    var f := x.Floor;
    var d := x - f as real;
    if d < 0.5 then f
    else if d > 0.5 then f + 1
    else if f % 2 == 0 then f
    else f + 1
  }

  /** Any integer strictly closer than one half to x is its rounding. */
  lemma RoundNearest(x: real, k: int)
    requires -0.5 < k as real - x < 0.5
    ensures Round(x) == k
  {
    var r := Round(x);
    assert -1.0 < r as real - k as real < 1.0;
  }

  /** Rounding an integer leaves it unchanged. */
  lemma RoundOfInteger(k: int)
    ensures Round(k as real) == k
  {
    RoundNearest(k as real, k);
  }

  /** Square kilometres to whole acres: round(km2 * 247.11). */
  function ToAcres(km2: real): (acres: int)
    ensures -0.5 <= acres as real - km2 * AcresPerSquareKm <= 0.5
  {
    Round(km2 * AcresPerSquareKm)
  }

  /** More area never converts to fewer acres. */
  lemma ToAcresMonotone(a: real, b: real)
    requires a <= b
    ensures ToAcres(a) <= ToAcres(b)
  {
    assert a * AcresPerSquareKm <= b * AcresPerSquareKm;
  }

  /** Worked conversions: 10, 20 and 30 square kilometres. */
  lemma ToAcresExamples()
    ensures ToAcres(10.0) == 2471
    ensures ToAcres(20.0) == 4942
    ensures ToAcres(30.0) == 7413
  {
    RoundNearest(10.0 * AcresPerSquareKm, 2471);
    RoundNearest(20.0 * AcresPerSquareKm, 4942);
    RoundNearest(30.0 * AcresPerSquareKm, 7413);
  }
}
