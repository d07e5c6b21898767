/**
  The cubic Bézier easing curve, over exact real numbers.

  Both coordinates are the same cubic with different control points. Its slope between any two
  parameters is a weighted mean of four quadratics, one for each corner of the square of control
  points; each of them lies between 0 and 3, which gives monotonicity and the accuracy of the
  bisection at once.
 */
module CubicBezier {
  datatype Curve = Curve(x1: real, y1: real, x2: real, y2: real)

  const EPSILON := 1.0 / 4503599627370496.0

  function Cubic(a: real, b: real, t: real): real {
    var omt := 1.0 - t;
    3.0 * omt * omt * t * a + 3.0 * omt * t * t * b + t * t * t
  }

  function XForT(c: Curve, t: real): real { Cubic(c.x1, c.x2, t) }
  function YForT(c: Curve, t: real): real { Cubic(c.y1, c.y2, t) }

  /** `steps` halvings of [lo, hi] towards `x`, and then the midpoint. */
  function Bisect(c: Curve, x: real, lo: real, hi: real, steps: nat): real
    decreases steps
  {
    var guess := (lo + hi) / 2.0;
    if steps == 0 then guess
    else if x < XForT(c, guess) then Bisect(c, x, lo, guess, steps - 1)
    else Bisect(c, x, guess, hi, steps - 1)
  }

  const STEPS := 31

  function TForX(c: Curve, x: real): real {
    Bisect(c, x, 0.0, 1.0, STEPS)
  }

  method ComputeTForX(c: Curve, x: real) returns (t: real)
    ensures t == TForX(c, x)
    ensures 0.0 <= t <= 1.0
  {
    var minT, maxT := 0.0, 1.0;
    for i := 0 to STEPS
      invariant 0.0 <= minT <= maxT <= 1.0
      invariant Bisect(c, x, minT, maxT, STEPS - i) == TForX(c, x)
    {
      var guessT := (minT + maxT) / 2.0;
      var guessX := XForT(c, guessT);
      if x < guessX {
        maxT := guessT;
      } else {
        minT := guessT;
      }
    }
    return (minT + maxT) / 2.0;
  }

  /** The easing function. */
  function Y(c: Curve, x: real): real {
    if x <= EPSILON then 0.0
    else if 1.0 - EPSILON <= x then 1.0
    else YForT(c, TForX(c, x))
  }

  // ----- the curve

  function Lerp(p: real, q: real, t: real): real { p + (q - p) * t }

  /** The construction by De Casteljau from 0, `a`, `b` and 1: three rounds of interpolation. */
  function DeCasteljau(a: real, b: real, t: real): real {
    var p, q, r := Lerp(0.0, a, t), Lerp(a, b, t), Lerp(b, 1.0, t);
    Lerp(Lerp(p, q, t), Lerp(q, r, t), t)
  }

  lemma CurveIsDeCasteljau(c: Curve, t: real)
    ensures XForT(c, t) == DeCasteljau(c.x1, c.x2, t)
    ensures YForT(c, t) == DeCasteljau(c.y1, c.y2, t)
  {
    CubicIsDeCasteljau(c.x1, c.x2, t);
    CubicIsDeCasteljau(c.y1, c.y2, t);
  }

  lemma CubicIsDeCasteljau(a: real, b: real, t: real)
    ensures Cubic(a, b, t) == DeCasteljau(a, b, t)
  {
    var s := 1.0 - t;
    var p, q, r := Lerp(0.0, a, t), Lerp(a, b, t), Lerp(b, 1.0, t);
    var u, v := Lerp(p, q, t), Lerp(q, r, t);
    LerpIsMean(0.0, a, s, t);
    LerpIsMean(a, b, s, t);
    LerpIsMean(b, 1.0, s, t);
    LerpIsMean(p, q, s, t);
    LerpIsMean(q, r, s, t);
    LerpIsMean(u, v, s, t);
    ThreeRounds(a, b, s, t, p, q, r, u, v);
  }

  lemma LerpIsMean(p: real, q: real, s: real, t: real)
    requires s == 1.0 - t
    ensures Lerp(p, q, t) == s * p + t * q
  {
    assert (q - p) * t == q * t - p * t;
    assert s * p == p - t * p;
  }

  lemma ThreeRounds(a: real, b: real, s: real, t: real, p: real, q: real, r: real, u: real, v: real)
    requires p == t * a && q == s * a + t * b && r == s * b + t
    requires u == s * p + t * q && v == s * q + t * r
    ensures s * u + t * v == 3.0 * s * s * t * a + 3.0 * s * t * t * b + t * t * t
  {
    assert s * u == s * s * t * a + s * t * s * a + s * t * t * b;
    assert t * v == t * s * s * a + t * s * t * b + t * t * s * b + t * t * t;
  }

  // ----- the slope of the cubic

  predicate InUnit(r: real) { 0.0 <= r <= 1.0 }

  /** The slopes between `s` and `t` for control points (0,0), (1,0), (0,1) and (1,1). */
  function Slope00(s: real, t: real): real { t * t + t * s + s * s }
  function Slope10(s: real, t: real): real { 3.0 - 6.0 * (t + s) + 4.0 * Slope00(s, t) }
  function Slope01(s: real, t: real): real { 3.0 * (t + s) - 2.0 * Slope00(s, t) }
  function Slope11(s: real, t: real): real { 3.0 - 3.0 * (t + s) + Slope00(s, t) }

  function Mix(a: real, p: real, q: real): real {
    (1.0 - a) * p + a * q
  }

  lemma SlopesAreBounded(s: real, t: real)
    requires InUnit(s) && InUnit(t)
    ensures AreSlopes(SlopesAt(s, t))
  {
    ProductOfUnits(s, s);
    ProductOfUnits(t, t);
    ProductOfUnits(t, s);
    ProductOfUnits(s, t);
    SlopesBelowThree(s, t, t * t, t * s, s * s);
    SquaresBelowSlope(s, t);
  }

  lemma SlopesBelowThree(s: real, t: real, tt: real, ts: real, ss: real)
    requires InUnit(s) && InUnit(t) && 0.0 <= tt <= t && 0.0 <= ss <= s && 0.0 <= ts <= t && ts <= s
    ensures 0.0 <= tt + ts + ss <= 3.0 && 2.0 * (tt + ts + ss) <= 3.0 * (t + s)
  {
  }

  lemma ProductOfUnits(p: real, q: real)
    requires InUnit(p) && InUnit(q)
    ensures 0.0 <= p * q <= p
  {
  }

  /** Completing the squares in `t + s - 1` and `t - s`. */
  lemma SquaresBelowSlope(s: real, t: real)
    ensures Slope10(s, t) >= 0.0
    ensures Slope00(s, t) >= 3.0 * (t + s) - 3.0
  {
    var p, d := t + s - 1.0, t - s;
    Square(p);
    Square(d);
    assert Slope10(s, t) == 3.0 * (p * p) + d * d;
    var e, f := t - 1.0, s - 1.0;
    assert Slope00(s, t) - 3.0 * (t + s) + 3.0 == e * e + e * f + f * f;
    Square(e + f);
    Square(e);
    Square(f);
    assert 2.0 * (e * e + e * f + f * f) == (e + f) * (e + f) + e * e + f * f;
  }

  lemma Square(r: real)
    ensures r * r >= 0.0
  {
  }

  lemma MixIsBounded(a: real, p: real, q: real)
    requires InUnit(a) && 0.0 <= p <= 3.0 && 0.0 <= q <= 3.0
    ensures 0.0 <= Mix(a, p, q) <= 3.0
  {
    var x := BoundedProduct(1.0 - a, p);
    var y := BoundedProduct(a, q);
    SumIsBounded(1.0 - a, a, x, y);
  }

  lemma BoundedProduct(d: real, m: real) returns (x: real)
    requires d >= 0.0 && 0.0 <= m <= 3.0
    ensures x == d * m && 0.0 <= x <= 3.0 * d
  {
    ProductIsBounded(d, m);
    x := d * m;
  }

  lemma SumIsBounded(r: real, a: real, x: real, y: real)
    requires r + a == 1.0 && 0.0 <= x <= 3.0 * r && 0.0 <= y <= 3.0 * a
    ensures 0.0 <= x + y <= 3.0
  {
  }

  lemma ProductIsBounded(d: real, m: real)
    requires d >= 0.0 && 0.0 <= m <= 3.0
    ensures 0.0 <= d * m <= 3.0 * d
  {
  }

  datatype Corners = Corners(c00: real, c10: real, c01: real, c11: real)

  /** The corner cubics, written out in powers of `t`. */
  function CornersAt(t: real): Corners {
    var t2, t3 := t * t, t * t * t;
    Corners(t3, 3.0 * t - 6.0 * t2 + 4.0 * t3, 3.0 * t2 - 2.0 * t3, 3.0 * t - 3.0 * t2 + t3)
  }

  function SlopesAt(s: real, t: real): Corners {
    Corners(Slope00(s, t), Slope10(s, t), Slope01(s, t), Slope11(s, t))
  }

  function MeanOf(a: real, b: real, c: Corners): real {
    Mix(a, Mix(b, c.c00, c.c01), Mix(b, c.c10, c.c11))
  }

  /** Any cubic is the mean of the four corner cubics. */
  lemma CubicIsMean(a: real, b: real, t: real)
    ensures Cubic(a, b, t) == MeanOf(a, b, CornersAt(t))
  {
    var t2, t3 := t * t, t * t * t;
    var u, v := 3.0 * t - 6.0 * t2 + 3.0 * t3, 3.0 * t2 - 3.0 * t3;
    BernsteinPowers(t);
    assert Cubic(a, b, t) == u * a + v * b + t3;
    assert CornersAt(t) == Corners(t3, u + t3, v + t3, u + v + t3);
    MeanOfSums(a, b, u, v, t3);
  }

  lemma BernsteinPowers(t: real)
    ensures 3.0 * (1.0 - t) * (1.0 - t) * t == 3.0 * t - 6.0 * (t * t) + 3.0 * (t * t * t)
    ensures 3.0 * (1.0 - t) * t * t == 3.0 * (t * t) - 3.0 * (t * t * t)
  {
  }

  lemma MeanOfSums(a: real, b: real, u: real, v: real, w: real)
    ensures MeanOf(a, b, Corners(w, u + w, v + w, u + v + w)) == u * a + v * b + w
  {
  }

  lemma DifferencesOfPowers(s: real, t: real)
    ensures (t - s) * (t + s) == t * t - s * s
    ensures (t - s) * Slope00(s, t) == t * t * t - s * s * s
  {
  }

  lemma Distribute(d: real, x: real, y: real)
    ensures d * (3.0 - 6.0 * x + 4.0 * y) == 3.0 * d - 6.0 * (d * x) + 4.0 * (d * y)
    ensures d * (3.0 * x - 2.0 * y) == 3.0 * (d * x) - 2.0 * (d * y)
    ensures d * (3.0 - 3.0 * x + y) == 3.0 * d - 3.0 * (d * x) + d * y
  {
  }

  lemma PowersRise(d: real, x: real, y: real, s: real, t: real, s2: real, t2: real, s3: real, t3: real)
    requires d == t - s && d * x == t2 - s2 && d * y == t3 - s3
    ensures (3.0 * t - 6.0 * t2 + 4.0 * t3) - (3.0 * s - 6.0 * s2 + 4.0 * s3) == d * (3.0 - 6.0 * x + 4.0 * y)
    ensures (3.0 * t2 - 2.0 * t3) - (3.0 * s2 - 2.0 * s3) == d * (3.0 * x - 2.0 * y)
    ensures (3.0 * t - 3.0 * t2 + t3) - (3.0 * s - 3.0 * s2 + s3) == d * (3.0 - 3.0 * x + y)
  {
    Distribute(d, x, y);
  }

  lemma CornerSlopes(s: real, t: real)
    ensures RisesBy(t - s, CornersAt(t), CornersAt(s), SlopesAt(s, t))
  {
    DifferencesOfPowers(s, t);
    PowersRise(t - s, t + s, Slope00(s, t), s, t, s * s, t * t, s * s * s, t * t * t);
  }

  /** The corners at two parameters, as nothing but values that rise with slopes up to 3. */
  lemma CornersRise(a: real, b: real, s: real, t: real) returns (p: Corners, q: Corners, k: Corners)
    requires InUnit(s) && InUnit(t)
    ensures Cubic(a, b, t) == MeanOf(a, b, p) && Cubic(a, b, s) == MeanOf(a, b, q)
    ensures RisesBy(t - s, p, q, k) && AreSlopes(k)
  {
    p, q, k := CornersAt(t), CornersAt(s), SlopesAt(s, t);
    CubicIsMean(a, b, s);
    CubicIsMean(a, b, t);
    CornerSlopes(s, t);
    SlopesAreBounded(s, t);
  }

  predicate RisesBy(d: real, p: Corners, q: Corners, k: Corners) {
    && p.c00 - q.c00 == d * k.c00 && p.c10 - q.c10 == d * k.c10
    && p.c01 - q.c01 == d * k.c01 && p.c11 - q.c11 == d * k.c11
  }

  predicate AreSlopes(k: Corners) {
    0.0 <= k.c00 <= 3.0 && 0.0 <= k.c10 <= 3.0 && 0.0 <= k.c01 <= 3.0 && 0.0 <= k.c11 <= 3.0
  }

  /** A mix of two differences with slopes up to 3 has such a slope itself. */
  lemma MixSlope(a: real, d: real, p: real, q: real, p': real, q': real, k: real, l: real) returns (m: real)
    requires InUnit(a) && 0.0 <= k <= 3.0 && 0.0 <= l <= 3.0
    requires p - p' == d * k && q - q' == d * l
    ensures 0.0 <= m <= 3.0 && Mix(a, p, q) - Mix(a, p', q') == d * m
  {
    m := Mix(a, k, l);
    MixIsBounded(a, k, l);
    assert (1.0 - a) * (p - p') == (1.0 - a) * (d * k);
    assert a * (q - q') == a * (d * l);
  }

  /** If the corners rise with slopes up to 3, so does their mean. */
  lemma MeanSlope(a: real, b: real, d: real, p: Corners, q: Corners, k: Corners)
    requires InUnit(a) && InUnit(b) && d >= 0.0 && RisesBy(d, p, q, k) && AreSlopes(k)
    ensures 0.0 <= MeanOf(a, b, p) - MeanOf(a, b, q) <= 3.0 * d
  {
    var left := MixSlope(b, d, p.c00, p.c01, q.c00, q.c01, k.c00, k.c01);
    var right := MixSlope(b, d, p.c10, p.c11, q.c10, q.c11, k.c10, k.c11);
    var m := MixSlope(a, d, Mix(b, p.c00, p.c01), Mix(b, p.c10, p.c11), Mix(b, q.c00, q.c01), Mix(b, q.c10, q.c11),
      left, right);
    ProductIsBounded(d, m);
  }

  /** With control points in the unit square the cubic rises, and never faster than 3. */
  lemma CubicSlope(a: real, b: real, s: real, t: real)
    requires InUnit(a) && InUnit(b) && 0.0 <= s <= t <= 1.0
    ensures 0.0 <= Cubic(a, b, t) - Cubic(a, b, s) <= 3.0 * (t - s)
  {
    var p, q, k := CornersRise(a, b, s, t);
    MeanSlope(a, b, t - s, p, q, k);
  }

  // ----- accuracy of the bisection

  /** `steps` halvings of a width. */
  function Narrowed(width: real, steps: nat): real
    decreases steps
  {
    if steps == 0 then width else Narrowed(width / 2.0, steps - 1)
  }

  lemma {:induction false} BisectIsAccurate(c: Curve, x: real, lo: real, hi: real, steps: nat)
    requires InUnit(c.x1) && InUnit(c.x2)
    requires 0.0 <= lo <= hi <= 1.0
    requires XForT(c, lo) <= x < XForT(c, hi)
    ensures var error := XForT(c, Bisect(c, x, lo, hi, steps)) - x;
      -1.5 * Narrowed(hi - lo, steps) <= error <= 1.5 * Narrowed(hi - lo, steps)
    decreases steps
  {
    var guess := (lo + hi) / 2.0;
    if steps == 0 {
      CubicSlope(c.x1, c.x2, lo, guess);
      CubicSlope(c.x1, c.x2, guess, hi);
    } else {
      assert guess - lo == (hi - lo) / 2.0 && hi - guess == (hi - lo) / 2.0;
      if x < XForT(c, guess) {
        BisectIsAccurate(c, x, lo, guess, steps - 1);
      } else {
        BisectIsAccurate(c, x, guess, hi, steps - 1);
      }
    }
  }

  lemma {:induction false} NarrowedTwice(width: real, m: nat, n: nat)
    ensures Narrowed(Narrowed(width, m), n) == Narrowed(width, m + n)
    decreases m
  {
    if m > 0 {
      NarrowedTwice(width / 2.0, m - 1, n);
    }
  }

  lemma Narrowed8(width: real)
    ensures Narrowed(width, 8) == width / 256.0
  {
  }

  lemma Narrowed7(width: real)
    ensures Narrowed(width, 7) == width / 128.0
  {
  }

  lemma NarrowedSteps()
    ensures Narrowed(1.0, STEPS) == 1.0 / 2147483648.0
  {
    Narrowed8(1.0);
    NarrowedTwice(1.0, 8, 8);
    Narrowed8(1.0 / 256.0);
    NarrowedTwice(1.0, 16, 8);
    Narrowed8(1.0 / 65536.0);
    NarrowedTwice(1.0, 24, 7);
    Narrowed7(1.0 / 16777216.0);
  }

  /** Inverting the curve is accurate to 3/2^32 along the x axis. */
  lemma TForXIsAccurate(c: Curve, x: real)
    requires InUnit(c.x1) && InUnit(c.x2) && 0.0 <= x < 1.0
    ensures var error := XForT(c, TForX(c, x)) - x;
      -3.0 / 4294967296.0 <= error <= 3.0 / 4294967296.0
  {
    assert XForT(c, 0.0) == 0.0 && XForT(c, 1.0) == 1.0;
    BisectIsAccurate(c, x, 0.0, 1.0, STEPS);
    NarrowedSteps();
  }

  // ----- monotonicity

  lemma {:induction false} BisectStaysBetween(c: Curve, x: real, lo: real, hi: real, steps: nat)
    requires lo <= hi
    ensures lo <= Bisect(c, x, lo, hi, steps) <= hi
    decreases steps
  {
    if steps > 0 {
      var guess := (lo + hi) / 2.0;
      BisectStaysBetween(c, x, lo, guess, steps - 1);
      BisectStaysBetween(c, x, guess, hi, steps - 1);
    }
  }

  lemma {:induction false} BisectIsMonotone(c: Curve, x: real, x': real, lo: real, hi: real, steps: nat)
    requires x <= x' && lo <= hi
    ensures Bisect(c, x, lo, hi, steps) <= Bisect(c, x', lo, hi, steps)
    decreases steps
  {
    if steps > 0 {
      var guess := (lo + hi) / 2.0;
      if x' < XForT(c, guess) {
        BisectIsMonotone(c, x, x', lo, guess, steps - 1);
      } else if x < XForT(c, guess) {
        BisectStaysBetween(c, x, lo, guess, steps - 1);
        BisectStaysBetween(c, x', guess, hi, steps - 1);
      } else {
        BisectIsMonotone(c, x, x', guess, hi, steps - 1);
      }
    }
  }

  /** For any control points at all, a larger `x` gives a larger parameter. */
  lemma TForXIsMonotone(c: Curve, x: real, x': real)
    requires x <= x'
    ensures 0.0 <= TForX(c, x) <= TForX(c, x') <= 1.0
  {
    BisectIsMonotone(c, x, x', 0.0, 1.0, STEPS);
    BisectStaysBetween(c, x, 0.0, 1.0, STEPS);
    BisectStaysBetween(c, x', 0.0, 1.0, STEPS);
  }

  /** The easing rises from 0 to 1 when the vertical control points are in [0, 1]. */
  lemma EasingIsMonotone(c: Curve, x: real, x': real)
    requires InUnit(c.y1) && InUnit(c.y2) && x <= x'
    ensures 0.0 <= Y(c, x) <= Y(c, x') <= 1.0
  {
    TForXIsMonotone(c, x, x');
    var t, t' := TForX(c, x), TForX(c, x');
    assert Cubic(c.y1, c.y2, 0.0) == 0.0 && Cubic(c.y1, c.y2, 1.0) == 1.0;
    CubicSlope(c.y1, c.y2, 0.0, t);
    CubicSlope(c.y1, c.y2, t, t');
    CubicSlope(c.y1, c.y2, t', 1.0);
  }

  /** The easing starts at 0, ends at 1, and in between is the height of the curve close above or below `x`. */
  lemma EasingFollowsCurve(c: Curve, x: real)
    requires InUnit(c.x1) && InUnit(c.x2)
    ensures x <= EPSILON ==> Y(c, x) == 0.0
    ensures x >= 1.0 - EPSILON ==> Y(c, x) == 1.0
    ensures EPSILON < x < 1.0 - EPSILON ==> exists t :: IsNear(c, x, t) && Y(c, x) == DeCasteljau(c.y1, c.y2, t)
  {
    if EPSILON < x < 1.0 - EPSILON {
      var t := TForX(c, x);
      TForXIsAccurate(c, x);
      TForXIsMonotone(c, x, x);
      CurveIsDeCasteljau(c, t);
      assert IsNear(c, x, t);
    }
  }

  /** The point of the curve at `t` is at most 3/2^32 beside `x`. */
  predicate IsNear(c: Curve, x: real, t: real) {
    InUnit(t) && -3.0 / 4294967296.0 <= DeCasteljau(c.x1, c.x2, t) - x <= 3.0 / 4294967296.0
  }
}
