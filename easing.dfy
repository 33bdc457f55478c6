/**
 * The easing primitive of the editor (Editor/script.js `ease`): a blend of the
 * identity with a piecewise-quadratic smoothstep, weighted by a strength.
 */
module Easing {

  function Sq(x: real): real
  {
    x * x
  }

  /** The smoothstep curve: `p < 0.5 ? 2p^2 : 1 - (-2p + 2)^2 / 2`. */
  function Smooth(p: real): real
  {
    if p < 0.5 then 2.0 * Sq(p) else 1.0 - Sq(-2.0 * p + 2.0) / 2.0
  }

  /** `ease(t, strength)`: the identity for strength 0, otherwise the blend. */
  function Ease(p: real, s: real): real
  {
    if s == 0.0 then p else p * (1.0 - s) + Smooth(p) * s
  }

  /** Strength 0 is exactly the identity, for every argument. */
  lemma EaseZeroStrength(p: real)
    ensures Ease(p, 0.0) == p
  {
  }

  /** Both end points are fixed, whatever the strength. */
  lemma EaseEndpoints(s: real)
    ensures Ease(0.0, s) == 0.0
    ensures Ease(1.0, s) == 1.0
  {
  }

  /** Squaring is non-decreasing on the non-negative reals. */
  lemma SqMonotone(x: real, y: real)
    requires 0.0 <= x <= y
    ensures 0.0 <= Sq(x) <= Sq(y)
  {
    MulMonotone(0.0, x, x);
    MulMonotone(x, y, x);
    MulMonotone(x, y, y);
    assert 0.0 <= x * x <= y * x;
    assert x * y == y * x;
    assert x * x <= y * y;
  }

  /** The square of a fraction is at most the fraction. */
  lemma SqBelow(x: real)
    requires 0.0 <= x <= 1.0
    ensures 0.0 <= Sq(x) <= x
  {
    MulMonotone(0.0, x, x);
    MulMonotone(x, 1.0, x);
    assert 0.0 * x == 0.0 && 1.0 * x == x;
    assert 0.0 <= x * x <= x;
  }

  lemma SmoothBounds(p: real)
    requires 0.0 <= p <= 1.0
    ensures 0.0 <= Smooth(p) <= 1.0
    ensures p < 0.5 ==> Smooth(p) < 0.5
    ensures p >= 0.5 ==> Smooth(p) >= 0.5
  {
    if p < 0.5 {
      SqBelow(p);
      MulMonotone(p, 0.5, p);
      assert p * p <= 0.5 * p;
    } else {
      SqBelow(-2.0 * p + 2.0);
    }
  }

  lemma SmoothMonotone(p: real, q: real)
    requires 0.0 <= p <= q <= 1.0
    ensures Smooth(p) <= Smooth(q)
  {
    SmoothBounds(p);
    SmoothBounds(q);
    if q < 0.5 {
      SqMonotone(p, q);
    } else if p >= 0.5 {
      SqMonotone(-2.0 * q + 2.0, -2.0 * p + 2.0);
    }
  }

  lemma SumMonotone(a: real, b: real, c: real, d: real)
    requires a <= b && c <= d
    ensures a + c <= b + d
  {
  }

  /** Multiplying by a non-negative factor keeps the order. */
  lemma MulMonotone(x: real, y: real, z: real)
    requires x <= y && 0.0 <= z
    ensures x * z <= y * z
  {
    assert y * z - x * z == (y - x) * z;
  }

  /** `k * y` lies between 0 and `y` when `k` is a fraction and `y` is non-negative. */
  lemma FractionOf(k: real, y: real)
    requires 0.0 <= k <= 1.0 && 0.0 <= y
    ensures 0.0 <= k * y
    ensures k * y <= y
  {
    assert (1.0 - k) * y >= 0.0;
    assert y - k * y == (1.0 - k) * y;
  }

  /** For arguments and strengths in [0, 1] the eased value stays in [0, 1]. */
  lemma EaseBounds(p: real, s: real)
    requires 0.0 <= p <= 1.0 && 0.0 <= s <= 1.0
    ensures 0.0 <= Ease(p, s) <= 1.0
  {
    if s != 0.0 {
      SmoothBounds(p);
      BlendBounds(p, Smooth(p), s);
    }
  }

  /** A convex blend of two fractions is a fraction. */
  lemma BlendBounds(a: real, b: real, s: real)
    requires 0.0 <= a <= 1.0 && 0.0 <= b <= 1.0 && 0.0 <= s <= 1.0
    ensures 0.0 <= a * (1.0 - s) + b * s
    ensures a * (1.0 - s) + b * s <= 1.0
  {
    var w := 1.0 - s;
    FractionOf(a, w);
    FractionOf(b, s);
    SumOfParts(a * w, b * s, w, s);
  }

  /** The linear step of the blend bound, kept apart from the products. */
  lemma SumOfParts(x: real, y: real, w: real, s: real)
    requires x <= w && y <= s && w + s == 1.0
    ensures x + y <= 1.0
  {
  }

  /** For strengths in [0, 1], easing is non-decreasing on [0, 1]. */
  lemma EaseMonotone(p: real, q: real, s: real)
    requires 0.0 <= p <= q <= 1.0 && 0.0 <= s <= 1.0
    ensures Ease(p, s) <= Ease(q, s)
  {
    if s != 0.0 {
      SmoothMonotone(p, q);
      BlendMonotone(p, q, Smooth(p), Smooth(q), s);
    }
  }

  /** The blend `a * (1 - s) + c * s` grows with both of its ends. */
  lemma BlendMonotone(a: real, b: real, c: real, d: real, s: real)
    requires a <= b && c <= d && 0.0 <= s <= 1.0
    ensures a * (1.0 - s) + c * s <= b * (1.0 - s) + d * s
  {
    var w := 1.0 - s;
    MulMonotone(a, b, w);
    MulMonotone(c, d, s);
    SumMonotone(a * w, b * w, c * s, d * s);
  }

  /** Linear interpolation `a + (b - a) * e`, the form every camera move uses. */
  function Lerp(a: real, b: real, e: real): (r: real)
    ensures e == 0.0 ==> r == a
    ensures e == 1.0 ==> r == b
    ensures 0.0 <= e <= 1.0 && a <= b ==> a <= r <= b
    ensures 0.0 <= e <= 1.0 && b <= a ==> b <= r <= a
  {
    var d := b - a;
    LerpBetween(a, d, e);
    a + d * e
  }

  /** Moving from `a` by a fraction `e` of a signed distance `d` stays between `a` and `a + d`. */
  lemma LerpBetween(a: real, d: real, e: real)
    ensures 0.0 <= e <= 1.0 && 0.0 <= d ==> a <= a + d * e <= a + d
    ensures 0.0 <= e <= 1.0 && d <= 0.0 ==> a + d <= a + d * e <= a
    ensures e == 0.0 ==> a + d * e == a
    ensures e == 1.0 ==> a + d * e == a + d
  {
    if 0.0 <= e <= 1.0 && 0.0 <= d {
      LerpUp(a, d, e);
    } else if 0.0 <= e <= 1.0 && d <= 0.0 {
      LerpDown(a, -d, e);
      assert d * e == -((-d) * e);
    }
  }

  lemma LerpUp(a: real, d: real, e: real)
    requires 0.0 <= e <= 1.0 && 0.0 <= d
    ensures a <= a + d * e
    ensures a + d * e <= a + d
  {
    FractionOf(e, d);
    assert d * e == e * d;
  }

  lemma LerpDown(a: real, n: real, e: real)
    requires 0.0 <= e <= 1.0 && 0.0 <= n
    ensures a - n <= a - n * e
    ensures a - n * e <= a
  {
    FractionOf(e, n);
    assert n * e == e * n;
  }
}
