/** JavaScript's `%` operator on numbers, which truncates toward zero (so a
    negative left operand gives a negative remainder), unlike Dafny's `%`. */
module JsMath {

  /** `Math.trunc(y)`. */
  function Trunc(y: real): (t: int)
    ensures y >= 0.0 ==> t as real <= y < t as real + 1.0
    ensures y < 0.0 ==> t as real - 1.0 < y <= t as real
  {
    if y >= 0.0 then y.Floor else -((-y).Floor)
  }

  /** `x % 360`, the only modulus the source takes. */
  function Rem360(x: real): real {
    x - 360.0 * Trunc(x / 360.0) as real
  }

  /** On a non-negative operand the remainder lies in `[0, 360)` and differs
      from `x` by a whole number of turns. */
  lemma RemOfNonNegative(x: real)
    requires x >= 0.0
    ensures 0.0 <= Rem360(x) < 360.0
    ensures Trunc(x / 360.0) >= 0
  {
  }

  /** When `x` lies in the `k`-th turn `[k*360, (k+1)*360)`, the remainder
      is `x - k*360`: the characterisation of `%` independent of `Trunc`. */
  lemma RemInWindow(x: real, k: int)
    requires k >= 0
    requires k as real * 360.0 <= x < (k + 1) as real * 360.0
    ensures Rem360(x) == x - k as real * 360.0
  {
    assert Trunc(x / 360.0) == k;
  }
}

/** `src/geo/bearing.ts`: from a box's horizontal extent and the panorama's
    heading to a compass bearing. */
module Bearing {
  import JsMath

  datatype BoxBearing = BoxBearing(bearing: real, cx: real)

  /** The box centre mapped linearly across the image width onto
      `[-180, 180]` degrees relative to the heading. */
  function RelativeAzimuth(cx: real, imageWidth: real): real
    requires imageWidth != 0.0
  {
    (cx / imageWidth) * 360.0 - 180.0
  }

  /** `bearingFromBox`. */
  function BearingFromBox(xmin: real, xmax: real, imageWidth: real, heading: real): (r: BoxBearing)
    requires imageWidth != 0.0
    ensures 2.0 * r.cx == xmin + xmax
    ensures heading + RelativeAzimuth(r.cx, imageWidth) + 360.0 >= 0.0 ==> 0.0 <= r.bearing < 360.0
  {
    var cx := (xmin + xmax) / 2.0;
    var relative := RelativeAzimuth(cx, imageWidth);
    var sum := heading + relative + 360.0;
    if sum >= 0.0 then JsMath.RemOfNonNegative(sum); BoxBearing(JsMath.Rem360(sum), cx)
    else BoxBearing(JsMath.Rem360(sum), cx)
  }

  /** A box inside the image maps to a relative angle within half a turn. */
  lemma RelativeAzimuthRange(cx: real, imageWidth: real)
    requires imageWidth > 0.0 && 0.0 <= cx <= imageWidth
    ensures -180.0 <= RelativeAzimuth(cx, imageWidth) <= 180.0
  {
    assert cx / imageWidth <= 1.0 by {
      assert (cx / imageWidth) * imageWidth == cx;
    }
  }

  /** `d` is a whole number of turns. */
  predicate IsWholeTurns(d: real) {
    (d / 360.0).Floor as real == d / 360.0
  }

  /** The bearing is the representative in `[0, 360)` of
      heading + relative angle, modulo a full turn. */
  lemma BearingIsNormalisedSum(xmin: real, xmax: real, imageWidth: real, heading: real)
    requires imageWidth != 0.0
    requires heading + RelativeAzimuth((xmin + xmax) / 2.0, imageWidth) + 360.0 >= 0.0
    ensures var b := BearingFromBox(xmin, xmax, imageWidth, heading).bearing;
            var sum := heading + RelativeAzimuth((xmin + xmax) / 2.0, imageWidth);
            0.0 <= b < 360.0 && IsWholeTurns(sum - b)
  {
    var sum := heading + RelativeAzimuth((xmin + xmax) / 2.0, imageWidth);
    JsMath.RemOfNonNegative(sum + 360.0);
    var t := JsMath.Trunc((sum + 360.0) / 360.0);
    var b := BearingFromBox(xmin, xmax, imageWidth, heading).bearing;
    assert b == sum - 360.0 * (t - 1) as real;
    assert (sum - b) / 360.0 == (t - 1) as real;
  }

  /** A box centred in the image looks straight along the heading. */
  lemma CentredBoxFollowsHeading(xmin: real, xmax: real, imageWidth: real, heading: real)
    requires imageWidth != 0.0 && xmin + xmax == imageWidth
    ensures BearingFromBox(xmin, xmax, imageWidth, heading).bearing == JsMath.Rem360(heading + 360.0)
  {
    assert (xmin + xmax) / 2.0 / imageWidth == 0.5;
  }
}

/** `src/geo/quality.ts`: a placeholder quality figure from the observation count. */
module Quality {
  import opened Common

  /** `rmsFromObservations(nObs)`: undefined below two observations, else
      `max(0.5, 5 / n)`. */
  function RmsFromObservations(nObs: int): (r: Option<real>)
    ensures r.None? <==> nObs < 2
    ensures r.Some? ==> 0.5 <= r.value <= 2.5
    ensures nObs == 2 ==> r == Some(2.5)
  {
    if nObs < 2 then None
    else
      var q := 5.0 / nObs as real;
      Some(if 0.5 < q then q else 0.5)
  }

  /** More observations never give a worse figure. */
  lemma QualityNonIncreasing(n: int, m: int)
    requires 2 <= n <= m
    ensures RmsFromObservations(m).value <= RmsFromObservations(n).value
  {
    var a := 5.0 / m as real;
    var b := 5.0 / n as real;
    assert a * (m as real) == 5.0;
    assert b * (n as real) == 5.0;
    assert b > 0.0;
    assert b * (n as real) <= b * (m as real) by {
      assert b * ((m - n) as real) >= 0.0;
    }
    assert a <= b by {
      assert (b - a) * (m as real) >= 0.0;
    }
  }

  /** The two regimes: `5/n` up to ten observations, the `0.5` floor from ten on. */
  lemma QualityRegimes(n: int)
    requires n >= 2
    ensures n <= 10 ==> RmsFromObservations(n) == Some(5.0 / n as real)
    ensures n >= 10 ==> RmsFromObservations(n) == Some(0.5)
  {
    assert (5.0 / n as real) * (n as real) == 5.0;
  }
}
