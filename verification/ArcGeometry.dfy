/** Plane geometry behind the workspace clamp: which point of a segment, or of an arc that is less
    than a half circle, is nearest to a given point. Arcs are taken with their centre at the
    origin and mirrored, where needed, into the upper half plane. */
module ArcGeometry {

  // std::sqrt, known by its defining property only
  type Root = real -> real
  ghost predicate IsRoot(root: Root) {
    forall x :: x >= 0.0 ==> root(x) >= 0.0 && root(x) * root(x) == x
  }

  // A product by name, so that squares inside other definitions stay products
  function Mul(a: real, b: real): real { a * b }
  function Square(a: real): real { Mul(a, a) }

  lemma SquareMirrored(a: real)
    ensures Square(-a) == Square(a)
  {
    SquareOfNegative(a);
  }

  lemma SquarePositive(a: real)
    requires a != 0.0
    ensures Square(a) > 0.0
  {
    hide Square;
    SquareMirrored(a);
    SquareOfPositive(if a > 0.0 then a else -a);
  }

  lemma SquareOfPositive(a: real)
    requires a > 0.0
    ensures Square(a) > 0.0
  {
    hide Mul;
    MulPositive(a, a);
  }

  lemma MulPositive(a: real, b: real)
    requires a > 0.0 && b > 0.0
    ensures Mul(a, b) > 0.0
  {
    ProductPositive(a, b);
  }

  lemma SquareNonNegative(a: real)
    ensures Square(a) >= 0.0
  {
    NonNegativeSquare(a);
  }

  function Dot(ax: real, ay: real, ex: real, ey: real): real { ax * ex + ay * ey }
  predicate OnUpperArc(r: real, x: real, y: real) { y >= 0.0 && x * x + y * y == r * r }

  lemma SquareOrder(a: real, b: real)
    requires b >= 0.0 && a * a <= b * b
    ensures a <= b
  {
    DifferenceOfSquares(a, b);
    if a > b {
      ProductPositive(a - b, a + b);
    }
  }

  lemma DifferenceOfSquares(a: real, b: real)
    ensures (a - b) * (a + b) == a * a - b * b
  {}

  lemma ProductPositive(a: real, b: real)
    requires a > 0.0 && b > 0.0
    ensures a * b > 0.0
  {}

  lemma ProductNonNegative(a: real, b: real)
    requires a >= 0.0 && b >= 0.0
    ensures a * b >= 0.0
  {}

  lemma CauchySchwarz(ux: real, uy: real, m: real, xx: real, xy: real, r: real)
    requires m >= 0.0 && r >= 0.0 && m * m == ux * ux + uy * uy && r * r == xx * xx + xy * xy
    ensures Dot(ux, uy, xx, xy) <= m * r
  {
    var d := Dot(ux, uy, xx, xy);
    var c := ux * xy - uy * xx;
    ProductNonNegative(m, r);
    Lagrange(ux, uy, xx, xy);
    SquareOfProduct(m, r);
    EqualProducts(m * m, ux * ux + uy * uy, r * r, xx * xx + xy * xy);
    assert d * d + c * c == (m * r) * (m * r);
    assert c * c >= 0.0;
    SquareOrder(d, m * r);
  }

  lemma SquareOfProduct(a: real, b: real)
    ensures (a * b) * (a * b) == (a * a) * (b * b)
  {}

  lemma EqualProducts(a: real, a': real, b: real, b': real)
    requires a == a' && b == b'
    ensures a * b == a' * b'
  {}

  lemma Lagrange(ux: real, uy: real, xx: real, xy: real)
    ensures Dot(ux, uy, xx, xy) * Dot(ux, uy, xx, xy) + (ux * xy - uy * xx) * (ux * xy - uy * xx)
         == (ux * ux + uy * uy) * (xx * xx + xy * xy)
  {}

  // On the upper half circle, further right means further clockwise
  lemma Clockwise(r: real, px: real, py: real, qx: real, qy: real)
    requires OnUpperArc(r, px, py) && OnUpperArc(r, qx, qy) && qx <= px
    ensures px * qy - py * qx >= 0.0
  {
    if px >= 0.0 && qx <= 0.0 {
      ProductNonNegative(px, qy);
      ProductNonNegative(py, -qx);
    } else if px >= 0.0 {
      ProductNonNegative(px - qx, px + qx);
      assert (px - qx) * (px + qx) == px * px - qx * qx;
      SquareOrder(py, qy);
      ProductNonNegative(px - qx, qy);
      ProductNonNegative(qx, qy - py);
      assert px * qy - py * qx == (px - qx) * qy + qx * (qy - py);
    } else {
      ProductNonNegative(px - qx, -px - qx);
      assert (px - qx) * (-px - qx) == qx * qx - px * px;
      SquareOrder(qy, py);
      ProductNonNegative(-px, py - qy);
      ProductNonNegative(px - qx, py);
      assert px * qy - py * qx == (px - qx) * py + (-px) * (py - qy);
    }
  }

  // Going clockwise from q, the projection on the direction of q only falls: of the points right
  // of q the leftmost one is the nearest
  lemma ProjectionFalls(r: real, qx: real, qy: real, ax: real, ay: real, xx: real, xy: real)
    requires r > 0.0 && OnUpperArc(r, qx, qy) && OnUpperArc(r, ax, ay) && OnUpperArc(r, xx, xy)
    requires qx <= ax <= xx
    ensures Dot(qx, qy, xx, xy) <= Dot(qx, qy, ax, ay)
  {
    hide Dot;
    if ay + xy == 0.0 {
      ProjectionFallsOnDiameter(r, qx, qy, ax, ay, xx, xy);
    } else {
      Clockwise(r, ax, ay, qx, qy);
      Clockwise(r, xx, xy, qx, qy);
      var w := (ax * qy - ay * qx) + (xx * qy - xy * qx);
      var gap := Dot(qx, qy, ax, ay) - Dot(qx, qy, xx, xy);
      ChordIdentity(r, qx, qy, ax, ay, xx, xy);
      ProductNonNegative(xx - ax, w);
      SignOfFactor(gap, ay + xy);
    }
  }

  lemma SignOfFactor(a: real, b: real)
    requires b > 0.0 && a * b >= 0.0
    ensures a >= 0.0
  {
    if a < 0.0 {
      ProductPositive(-a, b);
    }
  }

  lemma ProjectionFallsOnDiameter(r: real, qx: real, qy: real, ax: real, ay: real, xx: real, xy: real)
    requires r > 0.0 && OnUpperArc(r, qx, qy) && OnUpperArc(r, ax, ay) && OnUpperArc(r, xx, xy)
    requires qx <= ax <= xx && ay == 0.0 && xy == 0.0
    ensures Dot(qx, qy, xx, xy) <= Dot(qx, qy, ax, ay)
  {
    EndsOfDiameter(r, ax, xx);
    if ax != xx {
      LeftmostPoint(r, qx, qy);
    }
  }

  lemma EndsOfDiameter(r: real, a: real, x: real)
    requires r > 0.0 && a * a == r * r && x * x == r * r && a <= x
    ensures a == x || (a == -r && x == r)
  {
    SquareRoots(r, a);
    SquareRoots(r, x);
  }

  lemma SquareRoots(r: real, a: real)
    requires r > 0.0 && a * a == r * r
    ensures a == r || a == -r
  {
    DifferenceOfSquares(a, r);
    ZeroProduct(a - r, a + r);
  }

  lemma ZeroProduct(a: real, b: real)
    requires a * b == 0.0
    ensures a == 0.0 || b == 0.0
  {
    if a > 0.0 && b > 0.0 {
      ProductPositive(a, b);
    } else if a < 0.0 && b > 0.0 {
      ProductPositive(-a, b);
    } else if a > 0.0 && b < 0.0 {
      ProductPositive(a, -b);
    } else if a < 0.0 && b < 0.0 {
      ProductPositive(-a, -b);
    }
  }

  lemma LeftmostPoint(r: real, qx: real, qy: real)
    requires r > 0.0 && OnUpperArc(r, qx, qy) && qx <= -r
    ensures qx == -r && qy == 0.0
  {
    NonNegativeSquare(qy);
    SquareOfNegative(qx);
    SquareOrder(-qx, r);
    SquareOfNegative(r);
    EqualProducts(qx, -r, qx, -r);
    ZeroProduct(qy, qy);
  }

  lemma NonNegativeSquare(a: real)
    ensures a * a >= 0.0
  {}

  lemma SquareOfNegative(a: real)
    ensures (-a) * (-a) == a * a
  {}

  lemma ChordIdentity(r: real, qx: real, qy: real, ax: real, ay: real, xx: real, xy: real)
    requires ax * ax + ay * ay == r * r && xx * xx + xy * xy == r * r
    ensures (Dot(qx, qy, ax, ay) - Dot(qx, qy, xx, xy)) * (ay + xy)
         == (xx - ax) * ((ax * qy - ay * qx) + (xx * qy - xy * qx))
  {
    var lhs := (qx * (ax - xx) + qy * (ay - xy)) * (ay + xy);
    assert qy * ((ay - xy) * (ay + xy)) == qy * ((xx - ax) * (ax + xx)) by {
      assert (ay - xy) * (ay + xy) == ay * ay - xy * xy;
      assert (xx - ax) * (ax + xx) == xx * xx - ax * ax;
    }
    assert lhs == qx * (ax - xx) * (ay + xy) + qy * ((ay - xy) * (ay + xy));
    assert Dot(qx, qy, ax, ay) - Dot(qx, qy, xx, xy) == qx * (ax - xx) + qy * (ay - xy);
  }

  // Seen from below the centre the arc is concave, so one of its ends is the nearest
  lemma EndsAreNearest(r: real, ux: real, uy: real, ax: real, ay: real, ex: real, ey: real, xx: real, xy: real)
    requires r > 0.0 && uy <= 0.0 && ax < ex && ax <= xx <= ex
    requires OnUpperArc(r, ax, ay) && OnUpperArc(r, ex, ey) && OnUpperArc(r, xx, xy)
    ensures Dot(ux, uy, xx, xy) <= Dot(ux, uy, ax, ay) || Dot(ux, uy, xx, xy) <= Dot(ux, uy, ex, ey)
  {
    hide Dot, OnUpperArc;
    var t := Fraction(xx - ax, ex - ax);
    Mean(t, ax, ex, xx);
    var my := (1.0 - t) * ay + t * ey;
    ChordBelowArc(r, t, ax, ay, ex, ey, xx, xy);
    LowerIsFurther(ux, uy, xx, my, xy);
    Interpolate(ux, uy, t, ax, ay, ex, ey, xx, my);
    var fa, fb, fx := Dot(ux, uy, ax, ay), Dot(ux, uy, ex, ey), Dot(ux, uy, xx, xy);
    if fx > fa && fx > fb {
      Average(t, fa, fb, fx);
    }
  }

  lemma Fraction(n: real, d: real) returns (s: real)
    requires d > 0.0 && 0.0 <= n <= d
    ensures 0.0 <= s <= 1.0 && s * d == n
  {
    s := n / d;
    Ratio(n, d);
  }

  lemma Mean(s: real, a: real, e: real, x: real)
    requires s * (e - a) == x - a
    ensures x == (1.0 - s) * a + s * e
  {}

  lemma LowerIsFurther(ux: real, uy: real, x: real, lower: real, upper: real)
    requires uy <= 0.0 && lower <= upper
    ensures Dot(ux, uy, x, upper) <= Dot(ux, uy, x, lower)
  {
    ProductNonNegative(-uy, upper - lower);
  }

  lemma Ratio(n: real, d: real)
    requires d > 0.0 && 0.0 <= n <= d
    ensures 0.0 <= n / d <= 1.0 && (n / d) * d == n
  {}

  lemma Interpolate(ux: real, uy: real, t: real, ax: real, ay: real, ex: real, ey: real, mx: real, my: real)
    requires mx == (1.0 - t) * ax + t * ex && my == (1.0 - t) * ay + t * ey
    ensures Dot(ux, uy, mx, my) == (1.0 - t) * Dot(ux, uy, ax, ay) + t * Dot(ux, uy, ex, ey)
  {
    assert ux * mx == (1.0 - t) * (ux * ax) + t * (ux * ex);
    assert uy * my == (1.0 - t) * (uy * ay) + t * (uy * ey);
  }

  lemma Average(t: real, a: real, b: real, x: real)
    requires 0.0 <= t <= 1.0 && a < x && b < x
    ensures (1.0 - t) * a + t * b < x
  {
    assert x - ((1.0 - t) * a + t * b) == (1.0 - t) * (x - a) + t * (x - b);
    if t == 0.0 {
    } else {
      ProductPositive(t, x - b);
      ProductNonNegative(1.0 - t, x - a);
    }
  }

  lemma ChordBelowArc(r: real, t: real, ax: real, ay: real, ex: real, ey: real, xx: real, xy: real)
    requires r > 0.0 && 0.0 <= t <= 1.0
    requires OnUpperArc(r, ax, ay) && OnUpperArc(r, ex, ey) && OnUpperArc(r, xx, xy)
    requires xx == (1.0 - t) * ax + t * ex
    ensures (1.0 - t) * ay + t * ey <= xy
  {
    hide Dot;
    var my := (1.0 - t) * ay + t * ey;
    var ab := Dot(ax, ay, ex, ey);
    CauchySchwarz(ax, ay, r, ex, ey, r);
    ChordInside(t, ax, ay, ex, ey, xx, my, r * r, ab);
    SquareOrder(my, xy);
  }

  lemma ChordInside(t: real, ax: real, ay: real, ex: real, ey: real, mx: real, my: real, rr: real, ab: real)
    requires 0.0 <= t <= 1.0 && mx == (1.0 - t) * ax + t * ex && my == (1.0 - t) * ay + t * ey
    requires ax * ax + ay * ay == rr && ex * ex + ey * ey == rr && ab == Dot(ax, ay, ex, ey) <= rr
    ensures mx * mx + my * my <= rr
  {
    hide Dot;
    ChordNorm(t, ax, ay, ex, ey, mx, my, rr, ab);
    ChordShrinks(t, rr, ab);
  }

  lemma ChordShrinks(t: real, rr: real, ab: real)
    requires 0.0 <= t <= 1.0 && ab <= rr
    ensures (1.0 - t) * (1.0 - t) * rr + t * t * rr + 2.0 * t * (1.0 - t) * ab <= rr
  {
    ProductNonNegative(t, 1.0 - t);
    ProductNonNegative(t * (1.0 - t), rr - ab);
    assert rr - ((1.0 - t) * (1.0 - t) * rr + t * t * rr + 2.0 * t * (1.0 - t) * ab) == 2.0 * (t * (1.0 - t) * (rr - ab));
  }

  lemma ChordNorm(t: real, ax: real, ay: real, ex: real, ey: real, mx: real, my: real, rr: real, ab: real)
    requires mx == (1.0 - t) * ax + t * ex && my == (1.0 - t) * ay + t * ey
    requires ax * ax + ay * ay == rr && ex * ex + ey * ey == rr && ab == Dot(ax, ay, ex, ey)
    ensures mx * mx + my * my == (1.0 - t) * (1.0 - t) * rr + t * t * rr + 2.0 * t * (1.0 - t) * ab
  {
    SquareOfMean(t, ax, ex, mx);
    SquareOfMean(t, ay, ey, my);
    var u, v, w := (1.0 - t) * (1.0 - t), t * t, 2.0 * t * (1.0 - t);
    Distribute3(u, v, w, ax * ax, ex * ex, ax * ex, ay * ay, ey * ey, ay * ey);
    EqualProducts(u, u, ax * ax + ay * ay, rr);
    EqualProducts(v, v, ex * ex + ey * ey, rr);
    EqualProducts(w, w, ax * ex + ay * ey, ab);
  }

  lemma SquareOfMean(t: real, a: real, e: real, m: real)
    requires m == (1.0 - t) * a + t * e
    ensures m * m == (1.0 - t) * (1.0 - t) * (a * a) + t * t * (e * e) + 2.0 * t * (1.0 - t) * (a * e)
  {}

  lemma Distribute3(u: real, v: real, w: real, a: real, b: real, c: real, a': real, b': real, c': real)
    ensures (u * a + v * b + w * c) + (u * a' + v * b' + w * c') == u * (a + a') + v * (b + b') + w * (c + c')
  {}

  // ------------------------------- Segments -----------------------------------

  // The squared distance to A + s*v less its constant part, with d = (P-A).v and l = v.v, is
  // smallest at s = d/l pulled into [0, 1]
  lemma SegmentFoot(d: real, l: real, t: real, s: real)
    requires l > 0.0 && 0.0 <= s <= 1.0
    requires t == if d / l < 0.0 then 0.0 else if d / l > 1.0 then 1.0 else d / l
    ensures t * t * l - 2.0 * t * d <= s * s * l - 2.0 * s * d
  {
    var q := d / l;
    assert d == q * l;
    var rise := (s - t) * ((s + t) * l - 2.0 * d);
    assert s * s * l - 2.0 * s * d - (t * t * l - 2.0 * t * d) == rise;
    assert rise == l * ((s - t) * ((s + t) - 2.0 * q));
    if q < 0.0 {
      ProductNonNegative(s, s - 2.0 * q);
      ProductNonNegative(l, s * (s - 2.0 * q));
    } else if q > 1.0 {
      ProductNonNegative(1.0 - s, 2.0 * q - s - 1.0);
      assert (s - 1.0) * ((s + 1.0) - 2.0 * q) == (1.0 - s) * (2.0 * q - s - 1.0);
      ProductNonNegative(l, (1.0 - s) * (2.0 * q - s - 1.0));
    } else {
      assert (s - q) * ((s + q) - 2.0 * q) == (s - q) * (s - q);
      NonNegativeSquare(s - q);
      ProductNonNegative(l, (s - q) * (s - q));
    }
  }
}
