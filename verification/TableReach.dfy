/** Where the clamp of cpp/src/hand_core/kinematics/joint_clamp.cpp leaves its targets on tables whose
    arcs miss their knots by the digits that the centres have lost, at any slack of the range test. */
module TableReach {
  import opened Types
  import opened ArcGeometry
  import opened JointClamp
  import opened JointTables
  import T = JointTargets

  const MAX_RADIUS: real := 500.0
  // How far the arc falls or rises, at most, for each degree that the range test lets a foot pass a knot
  const STEEPNESS: real := 6000.0

  predicate UsableCurves(b: Boundary, flexionMax: real) {
    Usable(b, flexionMax) && forall i :: 0 <= i < |b| ==> Abs(b[i].radius) <= MAX_RADIUS
  }

  lemma ShippedCurves()
    ensures UsableCurves(LONG_A, 96.20) && UsableCurves(THUMB_A, 59.00)
    ensures UsableCurves(LONG_C, 95.46) && UsableCurves(THUMB_C, 76.23)
  {
    ShippedTablesAreUsable();
    hide Usable;
  }

  function Miss(n: Numerics): real { KNOT_ERROR + STEEPNESS * n.tolerance }

  predicate Beside(n: Numerics, c: Point, q: Point) {
    Abs(c.x - q.x) <= n.tolerance && Abs(c.y - q.y) <= Miss(n)
  }

  ghost predicate NearBoundary(n: Numerics, b: Boundary, flexionMax: real, c: Point) {
    exists q :: OnBoundary(b, flexionMax, q) && Beside(n, c, q)
  }

  // ------------------------------ A foot on the arc ------------------------------

  predicate UsableArc(n: Numerics, p: Piece) {
    && p.kind.Arc? && p.flexionLo < p.flexionHi && NearlyGood(p) && Clear(p) && AboveFloor(p)
    && Abs(p.radius) <= MAX_RADIUS
  }

  // The corrected piece, lifted by what the correction may have taken away
  function Lifted(p: Piece): Piece {
    p.(abductionLo := p.abductionLo + KNOT_ERROR, abductionHi := p.abductionHi + KNOT_ERROR,
       centerAbduction := p.centerAbduction + KNOT_ERROR)
  }

  function Up(q: Point): Point { q.(y := q.y + KNOT_ERROR) }

  lemma LiftedArc(p: Piece, q: Point)
    ensures OnHalfCircle(Lifted(p), Up(q)) == OnHalfCircle(p, q)
  {
    assert Up(q).y - Lifted(p).centerAbduction == q.y - p.centerAbduction;
  }

  lemma LiftedIsGood(n: Numerics, p: Piece)
    requires GoodNumerics(n) && UsableArc(n, p)
    ensures var c := Lifted(Corrected(n, p)); c.kind.Arc? && GoodPiece(c) && AboveFloor(c)
  {
    var c := Corrected(n, p);
    CorrectedIsGood(n, p);
    hide OnHalfCircle, OnCircle, NearlyGood, Clear;
    CorrectedShape(n, p);
    LiftedArc(c, Low(c));
    LiftedArc(c, High(c));
  }

  lemma CorrectedShape(n: Numerics, p: Piece)
    ensures var c := Corrected(n, p);
            c == p.(abductionLo := c.abductionLo, abductionHi := c.abductionHi)
  {}

  // The arc dips below the floor by no more than a knot may be off
  lemma ArcBarelyDips(n: Numerics, p: Piece, q: Point)
    requires GoodNumerics(n) && UsableArc(n, p) && OnPiece(p, q)
    ensures q.y >= -KNOT_ERROR
  {
    var c := Corrected(n, p);
    LiftedIsGood(n, p);
    CorrectedShape(n, p);
    hide UsableArc, OnHalfCircle, GoodPiece, AboveFloor, Corrected;
    LiftedArc(c, q);
    assert OnHalfCircle(c, q) by { hide *; SameCircle(p, c.abductionLo, c.abductionHi, q); CorrectedShape(n, p); }
    if p.radius < 0.0 {
      HollowArcAboveFloor(Lifted(c), Up(q));
    } else {
      FullArcAboveFloor(Lifted(c), Up(q));
    }
  }

  lemma SameCircle(p: Piece, lo: real, hi: real, q: Point)
    ensures OnHalfCircle(p.(abductionLo := lo, abductionHi := hi), q) == OnHalfCircle(p, q)
  {}

  // Two points of a half circle, one of them clear of the centre's height
  lemma HeightsAreNear(r: real, ax: real, ay: real, kx: real, ky: real, slack: real)
    requires 0.0 < r <= MAX_RADIUS && OnUpperArc(r, ax, ay) && OnUpperArc(r, kx, ky)
    requires -slack <= ax - kx <= slack && ky >= CLEARANCE - KNOT_ERROR
    ensures -STEEPNESS * slack <= ay - ky <= STEEPNESS * slack
  {
    WithinRadius(r, ax, ay);
    WithinRadius(r, kx, ky);
    DifferenceOfSquares(ay, ky);
    DifferenceOfSquares(kx, ax);
    assert Mul(ay - ky, ay + ky) == Mul(kx - ax, kx + ax);
    SmallProduct(kx - ax, kx + ax, slack);
    Quotients(ay - ky, ay + ky, slack);
  }

  lemma WithinRadius(r: real, x: real, y: real)
    requires 0.0 < r <= MAX_RADIUS && OnUpperArc(r, x, y)
    ensures -MAX_RADIUS <= x <= MAX_RADIUS
  {
    SquareNonNegative(y);
    LegIsShorter(r, x, Square(y));
  }

  lemma SmallProduct(d: real, s: real, slack: real)
    requires -slack <= d <= slack && -2.0 * MAX_RADIUS <= s <= 2.0 * MAX_RADIUS
    ensures -2.0 * MAX_RADIUS * slack <= Mul(d, s) <= 2.0 * MAX_RADIUS * slack
  {
    ProductNonNegative(slack - d, 2.0 * MAX_RADIUS + s);
    ProductNonNegative(slack + d, 2.0 * MAX_RADIUS - s);
    ProductNonNegative(slack - d, 2.0 * MAX_RADIUS - s);
    ProductNonNegative(slack + d, 2.0 * MAX_RADIUS + s);
    HalvedProducts(slack, d, 2.0 * MAX_RADIUS, s);
    HalvedProducts(slack, d, 2.0 * MAX_RADIUS, -s);
  }

  lemma Quotients(d: real, s: real, slack: real)
    requires slack >= 0.0 && s >= CLEARANCE - KNOT_ERROR
    requires -2.0 * MAX_RADIUS * slack <= Mul(d, s) <= 2.0 * MAX_RADIUS * slack
    ensures -STEEPNESS * slack <= d <= STEEPNESS * slack
  {
    if d > STEEPNESS * slack {
      MulGrows(STEEPNESS * slack, d, CLEARANCE - KNOT_ERROR, s);
    }
    if d < -STEEPNESS * slack {
      MulGrows(STEEPNESS * slack, -d, CLEARANCE - KNOT_ERROR, s);
    }
  }

  lemma MulGrows(a: real, b: real, c: real, d: real)
    requires 0.0 <= a < b && 0.0 < c <= d
    ensures Mul(a, c) < Mul(b, d)
  {
    ProductPositive(b - a, c);
    ProductNonNegative(b, d - c);
    assert Mul(b, d) - Mul(a, c) == Mul(b - a, c) + Mul(b, d - c);
  }

  // A foot beyond the knot k, by no more than the range test lets pass
  lemma FootBesideKnot(n: Numerics, p: Piece, k: Point, f: Point)
    requires GoodNumerics(n) && UsableArc(n, p) && (k == Low(p) || k == High(p))
    requires OnHalfCircle(p, f) && -n.tolerance <= f.x - k.x <= n.tolerance
    ensures OnPiece(p, OnCircle(n, p, k)) && Beside(n, Raised(f), OnCircle(n, p, k))
  {
    var q := OnCircle(n, p, k);
    KnotIsNearCircle(n, p, k);
    LocalOnArc(p, f);
    LocalOnArc(p, q);
    LocalDifference(p, k, q);
    LocalDifference(p, f, q);
    hide OnCircle, NearlyGood, OnHalfCircle, Clear, IsRoot, LocalY, NearCircle;
    assert LocalY(p, q) >= CLEARANCE - KNOT_ERROR by { HeightIsLocal(p, k); }
    HeightsAreNear(Abs(p.radius), LocalX(p, f), LocalY(p, f), LocalX(p, q), LocalY(p, q), n.tolerance);
  }

  lemma HeightIsLocal(p: Piece, q: Point)
    ensures Height(p, q) == LocalY(p, q)
  {}

  lemma LocalDifference(p: Piece, a: Point, b: Point)
    ensures Abs(LocalY(p, a) - LocalY(p, b)) == Abs(a.y - b.y)
  {}

  // ------------------------------ Where targets go -------------------------------

  lemma FootIsOnCircle(n: Numerics, p: Piece, t: Point)
    requires GoodNumerics(n) && UsableArc(n, p) && RadialFoot(n, p, t).Some?
    ensures var f := RadialFoot(n, p, t).value;
            OnHalfCircle(p, f) && p.flexionLo - n.tolerance <= f.x <= p.flexionHi + n.tolerance
  {
    hide OnHalfCircle, NearlyGood, Clear, AboveFloor, Corrected, RadialFoot, OnPiece, NearerKnot;
    var c := Corrected(n, p);
    CorrectedIsGood(n, p);
    CorrectedShape(n, p);
    KnotsOnPiece(c);
    ArcCandidateIsNearest(n, c, t, Low(c));
    SameRadialFoot(n, p, t);
    RadialFootInRange(n, p, t);
    SameCircle(p, c.abductionLo, c.abductionHi, RadialFoot(n, p, t).value);
  }

  lemma ArcCandidateIsNear(n: Numerics, p: Piece, t: Point) returns (q: Point)
    requires GoodNumerics(n) && UsableArc(n, p)
    ensures OnPiece(p, q) && Beside(n, Raised(Candidate(n, p, t)), q)
  {
    hide OnHalfCircle, NearlyGood, Clear, RadialFoot, IsRoot, OnCircle;
    match RadialFoot(n, p, t)
    case Some(f) =>
      FootIsOnCircle(n, p, t);
      if f.x < p.flexionLo {
        FootBesideKnot(n, p, Low(p), f);
        q := OnCircle(n, p, Low(p));
      } else if f.x > p.flexionHi {
        FootBesideKnot(n, p, High(p), f);
        q := OnCircle(n, p, High(p));
      } else {
        ArcBarelyDips(n, p, f);
        q := f;
      }
    case None =>
      var k := NearerKnot(p, t);
      KnotIsUsable(n, p, k);
      q := OnCircle(n, p, k);
  }

  lemma KnotIsUsable(n: Numerics, p: Piece, k: Point)
    requires GoodNumerics(n) && UsableArc(n, p) && (k == Low(p) || k == High(p))
    ensures OnPiece(p, OnCircle(n, p, k)) && Beside(n, Raised(k), OnCircle(n, p, k))
  {
    KnotIsNearCircle(n, p, k);
    hide NearlyGood, Clear, OnHalfCircle;
  }

  lemma CandidateIsNear(n: Numerics, p: Piece, t: Point) returns (q: Point)
    requires GoodNumerics(n) && p.flexionLo < p.flexionHi && NearlyGood(p) && Clear(p) && AboveFloor(p)
    requires Abs(p.radius) <= MAX_RADIUS
    ensures OnPiece(p, q) && Beside(n, Raised(Candidate(n, p, t)), q)
  {
    hide NearlyGood, Clear, OnLine, OnHalfCircle, LineFoot, Miss;
    if p.kind.Line? {
      KnotsOnLine(p);
      LineFootIsNearest(p, t, Low(p));
      q := LineFoot(p, t);
      LineAboveFloor(p, q);
      Itself(n, q);
    } else {
      q := ArcCandidateIsNear(n, p, t);
    }
  }

  lemma Itself(n: Numerics, q: Point)
    requires GoodNumerics(n) && q.y >= 0.0
    ensures Beside(n, Raised(q), q)
  {
    hide IsRoot;
  }

  // An outside target ends up at the boundary: beside it by no more than the slack, and off it by no
  // more than the lost digits and the slack make up on the steepest arc
  lemma OutsideEndsNearBoundary(n: Numerics, b: Boundary, flexionMax: real, t: Point)
    requires GoodNumerics(n) && UsableCurves(b, flexionMax) && !Inside(n, b, t)
    ensures NearBoundary(n, b, flexionMax, ClampPoint(n, b, flexionMax, t))
    ensures ClampPoint(n, b, flexionMax, t).y >= 0.0
  {
    hide NearlyGood, Clear, AboveFloor, OnPiece, Candidate, Beside, Inside, Dist2, Chained;
    NearestSoFar(n, b, flexionMax, t, |b|);
    var best := Nearest(n, b, flexionMax, t, |b|);
    if i :| 0 <= i < |b| && best == Candidate(n, b[i], t) {
      var q := CandidateIsNear(n, b[i], t);
      assert OnBoundary(b, flexionMax, q);
    } else {
      Itself(n, best);
      assert OnBoundary(b, flexionMax, best);
    }
  }

  // ---------------------------------- Pairs -----------------------------------

  // A pair within reach, or at the boundary up to the same distances
  ghost predicate NearlyReachable(n: Numerics, b: Boundary, flexionMax: real, p: T.Pair)
    requires Ascending(b)
  {
    || (p.flexion >= 0.0 && Inside(n, b, T.Measured(p)))
    || NearBoundary(n, b, flexionMax, Point(p.flexion / T.DEG2RAD, Abs(p.abduction / T.DEG2RAD)))
  }

  lemma ClampedPairIsNearlyReachable(n: Numerics, b: Boundary, flexionMax: real, p: T.Pair)
    requires GoodNumerics(n) && UsableCurves(b, flexionMax)
    ensures NearlyReachable(n, b, flexionMax, T.ClampPair(n, b, flexionMax, p))
  {
    hide NearBoundary, ClampPoint, NearlyGood, Clear, AboveFloor, Inside, Chained;
    var t, c := T.Measured(p), T.ClampPair(n, b, flexionMax, p);
    T.ConversionIsLossless(p.flexion);
    T.ConversionIsLossless(0.0);
    if !Inside(n, b, t) {
      var q := ClampPoint(n, b, flexionMax, t);
      OutsideEndsNearBoundary(n, b, flexionMax, t);
      T.ConversionIsLossless(q.x);
      T.ConversionIsLossless(q.y);
    }
  }

  // ---------------------------------- The hand ---------------------------------

  ghost predicate UsableHand(n: Numerics, h: T.Limits) {
    && GoodNumerics(n) && T.HasOrder(h)
    && UsableCurves(h.thumb, h.thumbFlexionMax) && UsableCurves(h.long, h.longFlexionMax)
    && h.thumbJ0Max >= 0.0 && h.thumbJ3Max >= 0.0 && h.longDistalMax >= 0.0
    && forall x, y :: h.distalFloor(x, y) >= 0.0
  }

  ghost predicate ThumbNearlyWithinLimits(n: Numerics, h: T.Limits, c: T.Targets)
    requires T.HasOrder(h)
  {
    && NearlyReachable(n, h.thumb, h.thumbFlexionMax, T.Pair(c[2], c[1]))
    && 0.0 <= c[0] <= h.thumbJ0Max * T.DEG2RAD && 0.0 <= c[3] <= h.thumbJ3Max * T.DEG2RAD
  }

  ghost predicate LongNearlyWithinLimits(n: Numerics, h: T.Limits, c: T.Targets, distal: nat)
    requires T.HasOrder(h) && 2 <= distal < ACTUATOR_COUNT
  {
    var floor := h.distalFloor(c[distal - 1], c[distal - 2]);
    && NearlyReachable(n, h.long, h.longFlexionMax, T.Pair(c[distal - 2], c[distal - 1]))
    && c[distal] >= floor >= 0.0
    && (c[distal] <= h.longDistalMax * T.DEG2RAD || c[distal] == floor)
  }

  lemma ThumbEndsNearlyWithinLimits(n: Numerics, h: T.Limits, t: T.Targets)
    requires UsableHand(n, h)
    ensures ThumbNearlyWithinLimits(n, h, T.ClampAll(n, h, t))
  {
    hide T.ClampPair, NearlyReachable, UsableCurves;
    var c := T.ClampAll(n, h, t);
    assert c[0] == T.ClampSlot(n, h, t, 0) && c[1] == T.ClampSlot(n, h, t, 1);
    assert c[2] == T.ClampSlot(n, h, t, 2) && c[3] == T.ClampSlot(n, h, t, 3);
    ClampedPairIsNearlyReachable(n, h.thumb, h.thumbFlexionMax, T.Pair(t[2], t[1]));
  }

  lemma LongEndsNearlyWithinLimits(n: Numerics, h: T.Limits, t: T.Targets, distal: nat)
    requires UsableHand(n, h) && T.IsDistal(distal)
    ensures LongNearlyWithinLimits(n, h, T.ClampAll(n, h, t), distal)
  {
    hide T.ClampPair, NearlyReachable, UsableCurves;
    var c, a := T.ClampAll(n, h, t), distal - 2;
    assert c[a] == T.ClampSlot(n, h, t, a) && c[a + 1] == T.ClampSlot(n, h, t, a + 1);
    assert c[distal] == T.ClampSlot(n, h, t, distal);
    ClampedPairIsNearlyReachable(n, h.long, h.longFlexionMax, T.Pair(t[a], t[a + 1]));
  }
}
