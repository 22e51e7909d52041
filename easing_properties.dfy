/**
  What the easing table promises: fixed endpoints, the In/Out mirror law,
  InOut curves built from two halves of the In curve, ranges on [0, 1],
  the Bounce breakpoints, and the pass-through of Expo and Elastic at 0 and 1.
 */
module EasingProperties {
  import opened Easings

  /** A product of two fractions is a fraction. */
  lemma FractionProduct(a: real, b: real)
    requires 0.0 <= a <= 1.0 && 0.0 <= b <= 1.0
    ensures 0.0 <= a * b <= 1.0
  {
    NonnegativeProduct(a, b);
    NonnegativeProduct(1.0 - a, b);
    NonnegativeProduct(a, 1.0 - b);
  }

  lemma NonnegativeProduct(x: real, y: real)
    requires x >= 0.0 && y >= 0.0
    ensures x * y >= 0.0
  {
  }

  /** Every power v * v * ... * v of a fraction up to the fifth is a fraction. */
  lemma PowersInUnit(v: real)
    requires 0.0 <= v <= 1.0
    ensures 0.0 <= v * v <= 1.0
    ensures 0.0 <= v * v * v <= 1.0
    ensures 0.0 <= v * v * v * v <= 1.0
    ensures 0.0 <= v * v * v * v * v <= 1.0
  {
    FractionProduct(v, v);
    FractionProduct(v * v, v);
    FractionProduct(v * v * v, v);
    FractionProduct(v * v * v * v, v);
  }

  // Each family's In/Out pair and its InOut curve are proved in separate
  // lemmas: stated together the solver's nonlinear search runs out of resource.

  /** easeInQuad and easeOutQuad map 0 to 0 and 1 to 1. */
  lemma QuadEndpoints()
    ensures EaseInQuad(0.0) == 0.0 && EaseInQuad(1.0) == 1.0
    ensures EaseOutQuad(0.0) == 0.0 && EaseOutQuad(1.0) == 1.0
  {
  }

  /** easeInOutQuad maps 0 to 0 and 1 to 1. */
  lemma InOutQuadEndpoints()
    ensures EaseInOutQuad(0.0) == 0.0 && EaseInOutQuad(1.0) == 1.0
  {
  }

  /** easeInCubic and easeOutCubic map 0 to 0 and 1 to 1. */
  lemma CubicEndpoints()
    ensures EaseInCubic(0.0) == 0.0 && EaseInCubic(1.0) == 1.0
    ensures EaseOutCubic(0.0) == 0.0 && EaseOutCubic(1.0) == 1.0
  {
  }

  /** easeInOutCubic maps 0 to 0 and 1 to 1. */
  lemma InOutCubicEndpoints()
    ensures EaseInOutCubic(0.0) == 0.0 && EaseInOutCubic(1.0) == 1.0
  {
  }

  /** easeInQuart and easeOutQuart map 0 to 0 and 1 to 1. */
  lemma QuartEndpoints()
    ensures EaseInQuart(0.0) == 0.0 && EaseInQuart(1.0) == 1.0
    ensures EaseOutQuart(0.0) == 0.0 && EaseOutQuart(1.0) == 1.0
  {
  }

  /** easeInOutQuart maps 0 to 0 and 1 to 1. */
  lemma InOutQuartEndpoints()
    ensures EaseInOutQuart(0.0) == 0.0 && EaseInOutQuart(1.0) == 1.0
  {
  }

  /** easeInQuint and easeOutQuint map 0 to 0 and 1 to 1. */
  lemma QuintEndpoints()
    ensures EaseInQuint(0.0) == 0.0 && EaseInQuint(1.0) == 1.0
    ensures EaseOutQuint(0.0) == 0.0 && EaseOutQuint(1.0) == 1.0
  {
  }

  /** easeInOutQuint maps 0 to 0 and 1 to 1. */
  lemma InOutQuintEndpoints()
    ensures EaseInOutQuint(0.0) == 0.0 && EaseInOutQuint(1.0) == 1.0
  {
  }

  /** The mirror law: easing in is easing out run backwards, for every v. */
  lemma InOutMirror(v: real)
    ensures EaseInQuad(v) == 1.0 - EaseOutQuad(1.0 - v)
    ensures EaseInCubic(v) == 1.0 - EaseOutCubic(1.0 - v)
    ensures EaseInQuart(v) == 1.0 - EaseOutQuart(1.0 - v)
    ensures EaseInQuint(v) == 1.0 - EaseOutQuint(1.0 - v)
  {
  }

  /** Each polynomial InOut curve is the In curve squeezed into the lower
      half and its point reflection in the upper half. */
  lemma InOutFromHalves(v: real)
    ensures EaseInOutQuad(v) ==
      if v < 0.5 then EaseInQuad(2.0 * v) / 2.0 else 1.0 - EaseInQuad(2.0 - 2.0 * v) / 2.0
    ensures EaseInOutCubic(v) ==
      if v < 0.5 then EaseInCubic(2.0 * v) / 2.0 else 1.0 - EaseInCubic(2.0 - 2.0 * v) / 2.0
    ensures EaseInOutQuart(v) ==
      if v < 0.5 then EaseInQuart(2.0 * v) / 2.0 else 1.0 - EaseInQuart(2.0 - 2.0 * v) / 2.0
    ensures EaseInOutQuint(v) ==
      if v < 0.5 then EaseInQuint(2.0 * v) / 2.0 else 1.0 - EaseInQuint(2.0 - 2.0 * v) / 2.0
  {
    InOutQuadHalves(v);
    InOutCubicHalves(v);
    InOutQuartHalves(v);
    InOutQuintHalves(v);
  }

  lemma InOutQuadHalves(v: real)
    ensures v < 0.5 ==> EaseInOutQuad(v) == EaseInQuad(2.0 * v) / 2.0
    ensures v >= 0.5 ==> EaseInOutQuad(v) == 1.0 - EaseInQuad(2.0 - 2.0 * v) / 2.0
  {
    if v < 0.5 {
      ScaledPowers(v);
    } else {
      var w := 1.0 - v;
      assert 2.0 - 2.0 * v == 2.0 * w;
      ScaledPowers(w);
      assert EaseInQuad(2.0 - 2.0 * v) == EaseInQuad(2.0 * w);
    }
  }

  lemma InOutCubicHalves(v: real)
    ensures v < 0.5 ==> EaseInOutCubic(v) == EaseInCubic(2.0 * v) / 2.0
    ensures v >= 0.5 ==> EaseInOutCubic(v) == 1.0 - EaseInCubic(2.0 - 2.0 * v) / 2.0
  {
    if v < 0.5 {
      ScaledPowers(v);
    } else {
      var w := 1.0 - v;
      assert 2.0 - 2.0 * v == 2.0 * w;
      ScaledPowers(w);
      assert EaseInCubic(2.0 - 2.0 * v) == EaseInCubic(2.0 * w);
    }
  }

  lemma InOutQuartHalves(v: real)
    ensures v < 0.5 ==> EaseInOutQuart(v) == EaseInQuart(2.0 * v) / 2.0
    ensures v >= 0.5 ==> EaseInOutQuart(v) == 1.0 - EaseInQuart(2.0 - 2.0 * v) / 2.0
  {
    if v < 0.5 {
      ScaledPowers(v);
    } else {
      var w := 1.0 - v;
      assert 2.0 - 2.0 * v == 2.0 * w;
      ScaledPowers(w);
      assert EaseInQuart(2.0 - 2.0 * v) == EaseInQuart(2.0 * w);
    }
  }

  lemma InOutQuintHalves(v: real)
    ensures v < 0.5 ==> EaseInOutQuint(v) == EaseInQuint(2.0 * v) / 2.0
    ensures v >= 0.5 ==> EaseInOutQuint(v) == 1.0 - EaseInQuint(2.0 - 2.0 * v) / 2.0
  {
    if v < 0.5 {
      ScaledPowers(v);
    } else {
      var w := 1.0 - v;
      assert 2.0 - 2.0 * v == 2.0 * w;
      ScaledPowers(w);
      assert EaseInQuint(2.0 - 2.0 * v) == EaseInQuint(2.0 * w);
    }
  }

  /** Doubling the argument of an In curve multiplies it by a power of two. */
  lemma ScaledPowers(w: real)
    ensures EaseInQuad(2.0 * w) / 2.0 == 2.0 * w * w
    ensures EaseInCubic(2.0 * w) / 2.0 == 4.0 * w * w * w
    ensures EaseInQuart(2.0 * w) / 2.0 == 8.0 * w * w * w * w
    ensures EaseInQuint(2.0 * w) / 2.0 == 16.0 * w * w * w * w * w
  {
    var u := 2.0 * w;
    assert u * u == 4.0 * (w * w);
    assert u * u * u == 8.0 * (w * w * w);
    assert u * u * u * u == 16.0 * (w * w * w * w);
    assert u * u * u * u * u == 32.0 * (w * w * w * w * w);
    assert 2.0 * w * w == 2.0 * (w * w);
    assert 4.0 * w * w * w == 4.0 * (w * w * w);
    assert 8.0 * w * w * w * w == 8.0 * (w * w * w * w);
    assert 16.0 * w * w * w * w * w == 16.0 * (w * w * w * w * w);
  }

  /** Both halves of each polynomial InOut curve give 0.5 at v = 0.5, so the
      split is continuous. */
  lemma InOutMeetAtHalf()
    ensures EaseInQuad(2.0 * 0.5) / 2.0 == 0.5 == EaseInOutQuad(0.5)
    ensures EaseInCubic(2.0 * 0.5) / 2.0 == 0.5 == EaseInOutCubic(0.5)
    ensures EaseInQuart(2.0 * 0.5) / 2.0 == 0.5 == EaseInOutQuart(0.5)
    ensures EaseInQuint(2.0 * 0.5) / 2.0 == 0.5 == EaseInOutQuint(0.5)
  {
  }

  /** Quad through Quint In map [0, 1] into [0, 1]. */
  lemma InPolynomialRange(v: real)
    requires 0.0 <= v <= 1.0
    ensures 0.0 <= EaseInQuad(v) <= 1.0 && 0.0 <= EaseInCubic(v) <= 1.0
    ensures 0.0 <= EaseInQuart(v) <= 1.0 && 0.0 <= EaseInQuint(v) <= 1.0
  {
    PowersInUnit(v);
  }

  /** Quad through Quint Out map [0, 1] into [0, 1]. */
  lemma OutPolynomialRange(v: real)
    requires 0.0 <= v <= 1.0
    ensures 0.0 <= EaseOutQuad(v) <= 1.0 && 0.0 <= EaseOutCubic(v) <= 1.0
    ensures 0.0 <= EaseOutQuart(v) <= 1.0 && 0.0 <= EaseOutQuint(v) <= 1.0
  {
    PowersInUnit(1.0 - v);
  }

  /** The Back curves hit 0 and 1 exactly with the literal constants. */
  lemma BackEndpoints()
    ensures EaseInBack(0.0) == 0.0 && EaseInBack(1.0) == 1.0
    ensures EaseOutBack(0.0) == 0.0 && EaseOutBack(1.0) == 1.0
    ensures EaseInOutBack(0.0) == 0.0 && EaseInOutBack(1.0) == 1.0
  {
  }

  /** easeOutBounce starts at 0 and touches 1 at each breakpoint 1/d, 2/d,
      2.5/d and at 1; the In and InOut variants built from it keep 0 and 1. */
  lemma BounceBreakpoints()
    ensures EaseOutBounce(0.0) == 0.0
    ensures EaseOutBounce(1.0 / BounceD) == 1.0
    ensures EaseOutBounce(2.0 / BounceD) == 1.0
    ensures EaseOutBounce(2.5 / BounceD) == 1.0
    ensures EaseOutBounce(1.0) == 1.0
    ensures EaseInBounce(0.0) == 0.0 && EaseInBounce(1.0) == 1.0
    ensures EaseInOutBounce(0.0) == 0.0 && EaseInOutBounce(1.0) == 1.0
  {
  }

  /** easeOutBounce is easeInBounce mirrored, for every v. */
  lemma BounceMirror(v: real)
    ensures EaseOutBounce(v) == 1.0 - EaseInBounce(1.0 - v)
  {
  }

  /** easeOutBounce maps [0, 1] into [0, 1]: every arc peaks at 1. */
  lemma BounceRange(v: real)
    requires 0.0 <= v <= 1.0
    ensures 0.0 <= EaseOutBounce(v) <= 1.0
    ensures 0.0 <= EaseInBounce(v) <= 1.0
    ensures 0.0 <= EaseInOutBounce(v) <= 1.0
  {
    OutBounceRange(v);
    OutBounceRange(1.0 - v);
    if v < 0.5 { OutBounceRange(1.0 - 2.0 * v); } else { OutBounceRange(2.0 * v - 1.0); }
  }

  lemma OutBounceRange(v: real)
    requires 0.0 <= v <= 1.0
    ensures 0.0 <= EaseOutBounce(v) <= 1.0
  {
    // with d = 2.75 the breakpoints 1/d, 2/d, 2.5/d are 4/11, 8/11, 10/11
    assert 1.0 / BounceD == 4.0 / 11.0 && 2.0 / BounceD == 8.0 / 11.0 && 2.5 / BounceD == 10.0 / 11.0;
    assert 1.5 / BounceD == 6.0 / 11.0 && 2.25 / BounceD == 9.0 / 11.0 && 2.625 / BounceD == 10.5 / 11.0;
    if v < 4.0 / 11.0 {
      SquareBound(v, 4.0 / 11.0);
    } else if v < 8.0 / 11.0 {
      SquareBound(v - 6.0 / 11.0, 2.0 / 11.0);
    } else if v < 10.0 / 11.0 {
      SquareBound(v - 9.0 / 11.0, 1.0 / 11.0);
    } else {
      SquareBound(v - 10.5 / 11.0, 0.5 / 11.0);
    }
  }

  /** A number within c of 0 has a square between 0 and c squared. */
  lemma SquareBound(x: real, c: real)
    requires -c <= x <= c
    ensures 0.0 <= x * x <= c * c
  {
    NonnegativeProduct(c - x, c + x);
    if x >= 0.0 { NonnegativeProduct(x, x); } else { NonnegativeProduct(-x, -x); }
  }

  /** Expo and Elastic return their input unchanged at exactly 0 and 1,
      whatever `pow` and `sin` are. */
  lemma PassThroughAtEndpoints(m: Math, v: real)
    requires IsZeroOrOne(v)
    ensures EaseInExpo(m, v) == v && EaseOutExpo(m, v) == v
    ensures EaseInElastic(m, v) == v && EaseOutElastic(m, v) == v
    ensures EaseInOutElastic(m, v) == v
  {
  }

  /** The lower half of easeInOutExpo is easeInExpo at twice the speed,
      halved; hence it starts at 0. */
  lemma InOutExpoLowerHalf(m: Math, v: real)
    requires v < 0.5
    ensures EaseInOutExpo(m, v) == EaseInExpo(m, 2.0 * v) / 2.0
    ensures v == 0.0 ==> EaseInOutExpo(m, v) == 0.0
  {
  }

  /** As written, easeInOutExpo reaches 1 at v = 1 only if pow(2, -10) is 0;
      with the exact power it ends at 2047/2048. */
  lemma InOutExpoMissesOne(m: Math)
    ensures EaseInOutExpo(m, 1.0) == 1.0 <==> m.pow(2.0, -10.0) == 0.0
    ensures m.pow(2.0, -10.0) == 1.0 / 1024.0 ==> EaseInOutExpo(m, 1.0) == 2047.0 / 2048.0
  {
  }

  /** The corrected easeInOutExpo keeps the lower-half delegation and fixes
      both endpoints, whatever `pow` is. */
  lemma InOutExpoFixedEndpoints(m: Math)
    ensures EaseInOutExpoFixed(m, 0.0) == 0.0 && EaseInOutExpoFixed(m, 1.0) == 1.0
    ensures forall v :: 0.0 < v < 0.5 ==> EaseInOutExpoFixed(m, v) == EaseInExpo(m, 2.0 * v) / 2.0
  {
  }
}
