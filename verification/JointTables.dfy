/** The boundary tables that cpp/src/hand_core/kinematics/joint_clamp.cpp ships, and how far they are
    from the exact chains the other results speak of. */
module JointTables {
  import opened Types
  import opened ArcGeometry
  import opened JointClamp

  // Hand types a and b: a long finger, then the thumb
  const LONG_A: Boundary := [
    Piece(Arc, 0.00, 11.56, 0.00, 30.00, -142.7639230149, 72.2389250017, -160.0),
    Piece(Line, 11.56, 50.50, 30.00, 30.00, 0.0, 0.0, 0.0),
    Piece(Arc, 50.50, 87.50, 30.00, 18.50, 104.1494008616, 137.3393766853, -120.0),
    Piece(Arc, 87.50, 93.20, 18.50, 12.40, 76.0586998853, 2.0958343191, 20.0),
    Piece(Arc, 93.20, 96.20, 12.40, 0.00, 121.1992042337, 12.6110977985, -28.0)
  ]
  const THUMB_A: Boundary := [
    Piece(Arc, 0.00, 9.40, 0.00, 29.50, -423.8055121749, 151.2907394727, -450.0),
    Piece(Arc, 9.40, 48.00, 29.50, 44.50, -61.5421725476, 269.2231906892, -250.0),
    Piece(Arc, 48.00, 58.40, 44.50, 39.43, 27.0303586384, -11.7163156136, 60.0),
    Piece(Line, 58.40, 59.00, 39.43, 0.00, 0.0, 0.0, 0.0)
  ]
  // Hand type c
  const LONG_C: Boundary := [
    Piece(Arc, 0.00, 10.60, 0.40, 27.50, -117.5448848530, 62.0000287617, -132.7078125000),
    Piece(Line, 10.60, 54.60, 27.50, 27.50, 0.0, 0.0, 0.0),
    Piece(Arc, 54.60, 92.68, 27.50, 13.25, -71.1198326410, -366.4639071557, 413.5372250000),
    Piece(Arc, 92.68, 95.46, 13.25, 0.00, 143.6789848190, 17.0335266262, -51.1391388889)
  ]
  const THUMB_C: Boundary := [
    Piece(Arc, 0.00, 9.00, 0.60, 29.60, -425.8806321979, 148.6664030959, -450.8857644759),
    Piece(Arc, 9.00, 50.00, 29.60, 45.10, -55.2563274548, 261.5441564934, -240.6802180268),
    Piece(Arc, 50.00, 65.00, 45.10, 37.30, 30.1694515845, -11.3587469529, 59.8401266539),
    Piece(Arc, 65.00, 76.23, 37.30, 0.00, 251.7767940919, 73.1928136100, -190.1942819332)
  ]

  const SLACK: real := 0.0000001

  // How far the circle passes from a knot, in square degrees
  predicate NearCircle(p: Piece, q: Point) {
    && Abs(Norm2(q.x - p.centerFlexion, q.y - p.centerAbduction) - Square(p.radius)) <= SLACK
    && Sign(p.radius) * (q.y - p.centerAbduction) > 0.0
  }

  predicate NearlyGood(p: Piece) {
    p.kind.Arc? ==> p.radius != 0.0 && NearCircle(p, Low(p)) && NearCircle(p, High(p))
  }

  // A well-formed table, except that its centres keep ten digits only
  predicate NearlyWellFormed(b: Boundary, flexionMax: real) {
    && Ascending(b) && Chained(b) && Last(b).flexionHi == flexionMax && Last(b).abductionHi == 0.0
    && forall i :: 0 <= i < |b| ==> AboveFloor(b[i]) && NearlyGood(b[i])
  }

  lemma LongAIsNearlyWellFormed()
    ensures NearlyWellFormed(LONG_A, 96.20)
  {
    hide NearlyGood;
    assert NearlyGood(LONG_A[0]) && NearlyGood(LONG_A[1]) && NearlyGood(LONG_A[2]) && NearlyGood(LONG_A[3]) && NearlyGood(LONG_A[4]) by {
      LongAKnots();
    }
  }

  lemma LongAKnots()
    ensures forall i :: 0 <= i < |LONG_A| ==> NearlyGood(LONG_A[i])
  {}

  lemma ThumbAIsNearlyWellFormed()
    ensures NearlyWellFormed(THUMB_A, 59.00)
  {
    hide NearlyGood;
    assert NearlyGood(THUMB_A[0]) && NearlyGood(THUMB_A[1]) && NearlyGood(THUMB_A[2]) && NearlyGood(THUMB_A[3]) by {
      ThumbAKnots();
    }
  }

  lemma ThumbAKnots()
    ensures forall i :: 0 <= i < |THUMB_A| ==> NearlyGood(THUMB_A[i])
  {}

  lemma LongCIsNearlyWellFormed()
    ensures NearlyWellFormed(LONG_C, 95.46)
  {
    hide NearlyGood;
    assert NearlyGood(LONG_C[0]) && NearlyGood(LONG_C[1]) && NearlyGood(LONG_C[2]) && NearlyGood(LONG_C[3]) by {
      LongCKnots();
    }
  }

  lemma LongCKnots()
    ensures forall i :: 0 <= i < |LONG_C| ==> NearlyGood(LONG_C[i])
  {}

  lemma ThumbCIsNearlyWellFormed()
    ensures NearlyWellFormed(THUMB_C, 76.23)
  {
    hide NearlyGood;
    assert NearlyGood(THUMB_C[0]) && NearlyGood(THUMB_C[1]) && NearlyGood(THUMB_C[2]) && NearlyGood(THUMB_C[3]) by {
      ThumbCKnots();
    }
  }

  lemma ThumbCKnots()
    ensures forall i :: 0 <= i < |THUMB_C| ==> NearlyGood(THUMB_C[i])
  {}

  lemma ShippedTables()
    ensures NearlyWellFormed(LONG_A, 96.20) && NearlyWellFormed(THUMB_A, 59.00)
    ensures NearlyWellFormed(LONG_C, 95.46) && NearlyWellFormed(THUMB_C, 76.23)
  {
    hide NearlyWellFormed;
    LongAIsNearlyWellFormed();
    ThumbAIsNearlyWellFormed();
    LongCIsNearlyWellFormed();
    ThumbCIsNearlyWellFormed();
  }

  // With exact knots in place of near ones nothing is missing
  lemma ExactKnotsAreWellFormed(b: Boundary, flexionMax: real)
    requires NearlyWellFormed(b, flexionMax)
    requires forall i :: 0 <= i < |b| && b[i].kind.Arc? ==> OnHalfCircle(b[i], Low(b[i])) && OnHalfCircle(b[i], High(b[i]))
    ensures WellFormed(b, flexionMax)
  {}

  // ------------------------- Nearest, up to the lost digits --------------------------

  // A knot keeps its distance from the centre's height, so that its height decides about little
  const CLEARANCE: real := 0.2
  const KNOT_ERROR: real := 0.0000005

  function Height(p: Piece, q: Point): real { Sign(p.radius) * (q.y - p.centerAbduction) }

  predicate Clear(p: Piece) { p.kind.Arc? ==> Height(p, Low(p)) >= CLEARANCE && Height(p, High(p)) >= CLEARANCE }

  predicate Usable(b: Boundary, flexionMax: real) {
    NearlyWellFormed(b, flexionMax) && forall i :: 0 <= i < |b| ==> Clear(b[i])
  }

  lemma ShippedTablesAreUsable()
    ensures Usable(LONG_A, 96.20) && Usable(THUMB_A, 59.00) && Usable(LONG_C, 95.46) && Usable(THUMB_C, 76.23)
  {
    ShippedTables();
    hide NearlyWellFormed;
  }

  function Distance(n: Numerics, p: Point, q: Point): real { n.root(Dist2(p, q)) }

  lemma RootGrows(n: Numerics, a: real, b: real)
    requires GoodNumerics(n) && 0.0 <= a <= b
    ensures 0.0 <= n.root(a) <= n.root(b) && Square(n.root(a)) == a
  {
    if n.root(a) > n.root(b) {
      ProductNonNegative(n.root(a) - n.root(b), n.root(b));
      SquarePositive(n.root(a) - n.root(b));
      ExpandedSquare(n.root(b), n.root(a) - n.root(b));
    }
  }

  lemma ExpandedSquare(a: real, d: real)
    ensures Square(a + d) == Square(a) + 2.0 * Mul(a, d) + Square(d)
  {}

  // The point of the half circle right above or below a knot
  function OnCircle(n: Numerics, p: Piece, q: Point): Point {
    q.(y := p.centerAbduction + Sign(p.radius) * n.root(Square(p.radius) - Square(q.x - p.centerFlexion)))
  }

  lemma RootsAreNear(a: real, b: real)
    requires a >= CLEARANCE && b >= 0.0 && -SLACK <= Square(a) - Square(b) <= SLACK
    ensures -KNOT_ERROR <= a - b <= KNOT_ERROR
  {
    DifferenceOfSquares(a, b);
    if a - b > KNOT_ERROR {
      ProductsGrow(KNOT_ERROR, a - b, CLEARANCE, a + b);
    }
    if b - a > KNOT_ERROR {
      ProductsGrow(KNOT_ERROR, b - a, CLEARANCE, a + b);
      DifferenceOfSquares(b, a);
    }
  }

  lemma ProductsGrow(a: real, b: real, c: real, d: real)
    requires 0.0 < a < b && 0.0 < c <= d
    ensures Mul(a, c) < Mul(b, d)
  {
    assert Mul(b, d) - Mul(a, c) == Mul(b - a, c) + Mul(b, d - c);
  }

  lemma KnotIsNearCircle(n: Numerics, p: Piece, q: Point)
    requires GoodNumerics(n) && p.radius != 0.0 && NearCircle(p, q) && Height(p, q) >= CLEARANCE
    ensures OnHalfCircle(p, OnCircle(n, p, q))
    ensures -KNOT_ERROR <= q.y - OnCircle(n, p, q).y <= KNOT_ERROR
  {
    var under := Square(p.radius) - Square(q.x - p.centerFlexion);
    var h := Height(p, q);
    SignedSquare(p.radius, q.y - p.centerAbduction);
    ClearSquare(h);
    var r := n.root(under);
    assert Square(r) == under;
    SignedSquare(p.radius, r);
    RootsAreNear(h, r);
  }

  lemma SignedSquare(radius: real, a: real)
    ensures Square(Sign(radius) * a) == Square(a) && Sign(radius) * (Sign(radius) * a) == a
  {}

  lemma ClearSquare(h: real)
    requires h >= CLEARANCE
    ensures Square(h) > SLACK
  {
    ProductsGrow(0.1, h, 0.1, h);
  }

  // Moving a point by a little moves the distance to it by no more
  lemma NearPointsAreAsFar(n: Numerics, t: Point, q: Point, q': Point)
    requires GoodNumerics(n) && q.x == q'.x && -KNOT_ERROR <= q.y - q'.y <= KNOT_ERROR
    ensures Distance(n, t, q) <= Distance(n, t, q') + KNOT_ERROR
  {
    var u, h, d := Distance(n, t, q'), t.y - q'.y, q'.y - q.y;
    SquareNonNegative(t.x - q.x);
    SquareNonNegative(h);
    RootGrows(n, Dist2(t, q'), Dist2(t, q'));
    assert Square(u) == Square(t.x - q.x) + Square(h);
    LegIsShorter(u, h, Square(t.x - q.x));
    ExpandedSquare(h, d);
    ExpandedSquare(u, KNOT_ERROR);
    assert t.y - q.y == h + d;
    CrossTerm(u, h, d);
    SquareOfSmall(d);
    assert Dist2(t, q) <= Square(u + KNOT_ERROR);
    SquareNonNegative(t.y - q.y);
    RootGrows(n, Dist2(t, q), Square(u + KNOT_ERROR));
    RootOfSquare(n, u + KNOT_ERROR);
  }

  lemma LegIsShorter(u: real, h: real, rest: real)
    requires u >= 0.0 && rest >= 0.0 && Square(u) == rest + Square(h)
    ensures -u <= h <= u
  {
    SquareOrder(h, u);
    SquareMirrored(h);
    SquareOrder(-h, u);
  }

  lemma CrossTerm(u: real, h: real, d: real)
    requires -u <= h <= u && -KNOT_ERROR <= d <= KNOT_ERROR
    ensures Mul(h, d) <= Mul(u, KNOT_ERROR)
  {
    ProductNonNegative(u - h, KNOT_ERROR + d);
    ProductNonNegative(u + h, KNOT_ERROR - d);
    HalvedProducts(u, h, KNOT_ERROR, d);
  }

  lemma HalvedProducts(u: real, h: real, e: real, d: real)
    ensures (u - h) * (e + d) + (u + h) * (e - d) == 2.0 * (u * e) - 2.0 * (h * d)
  {}

  lemma SquareOfSmall(d: real)
    requires -KNOT_ERROR <= d <= KNOT_ERROR
    ensures Square(d) <= Square(KNOT_ERROR)
  {
    ProductNonNegative(KNOT_ERROR - d, KNOT_ERROR + d);
    DifferenceOfSquares(KNOT_ERROR, d);
  }

  lemma RootOfSquare(n: Numerics, a: real)
    requires GoodNumerics(n) && a >= 0.0
    ensures n.root(Square(a)) == a
  {
    ProductNonNegative(a, a);
    SquareOrder(n.root(Square(a)), a);
    SquareOrder(a, n.root(Square(a)));
  }

  // The piece with its knots put on the circle
  function Corrected(n: Numerics, p: Piece): Piece {
    p.(abductionLo := OnCircle(n, p, Low(p)).y, abductionHi := OnCircle(n, p, High(p)).y)
  }

  lemma CorrectedIsGood(n: Numerics, p: Piece)
    requires GoodNumerics(n) && p.kind.Arc? && p.flexionLo < p.flexionHi && NearlyGood(p) && Clear(p)
    ensures GoodPiece(Corrected(n, p))
    ensures forall q :: OnPiece(Corrected(n, p), q) <==> OnPiece(p, q)
    ensures -KNOT_ERROR <= p.abductionLo - Corrected(n, p).abductionLo <= KNOT_ERROR
    ensures -KNOT_ERROR <= p.abductionHi - Corrected(n, p).abductionHi <= KNOT_ERROR
  {
    hide NearCircle, IsRoot, Height;
    KnotIsNearCircle(n, p, Low(p));
    KnotIsNearCircle(n, p, High(p));
  }

  lemma SameRadialFoot(n: Numerics, p: Piece, t: Point)
    ensures RadialFoot(n, Corrected(n, p), t) == RadialFoot(n, p, t)
  {
    hide OnCircle, Norm2;
    var c := Corrected(n, p);
    assert Above(c, t) == Above(p, t);
    if Above(p, t) {
      var length := n.root(Norm2(t.x - p.centerFlexion, t.y - p.centerAbduction));
      if length != 0.0 {
        assert Foot(c, t, Abs(p.radius) / length) == Foot(p, t, Abs(p.radius) / length);
      }
    }
  }

  lemma NearerKnotIsNear(n: Numerics, p: Piece, t: Point)
    requires GoodNumerics(n) && p.kind.Arc? && p.flexionLo < p.flexionHi && NearlyGood(p) && Clear(p)
    ensures Distance(n, t, NearerKnot(p, t)) <= Distance(n, t, NearerKnot(Corrected(n, p), t)) + KNOT_ERROR
  {
    CorrectedIsGood(n, p);
    hide NearlyGood, Clear, Distance, OnCircle;
    var c := Corrected(n, p);
    var k := NearerKnot(c, t);
    var own := if k == Low(c) then Low(p) else High(p);
    NearPointsAreAsFar(n, t, own, k);
    KnotsAreFurther(p, t);
    NearerIsNearer(n, t, NearerKnot(p, t), own);
  }

  lemma KnotsAreFurther(p: Piece, t: Point)
    ensures Dist2(t, NearerKnot(p, t)) <= Dist2(t, Low(p)) && Dist2(t, NearerKnot(p, t)) <= Dist2(t, High(p))
  {}

  lemma NearerIsNearer(n: Numerics, t: Point, q: Point, q': Point)
    requires GoodNumerics(n) && Dist2(t, q) <= Dist2(t, q')
    ensures Distance(n, t, q) <= Distance(n, t, q')
  {
    SquareNonNegative(t.x - q.x);
    SquareNonNegative(t.y - q.y);
    RootGrows(n, Dist2(t, q), Dist2(t, q'));
  }

  lemma NearArcCandidate(n: Numerics, p: Piece, t: Point, q: Point)
    requires GoodNumerics(n) && p.kind.Arc? && p.flexionLo < p.flexionHi && NearlyGood(p) && Clear(p) && OnPiece(p, q)
    ensures Distance(n, t, Candidate(n, p, t)) <= Distance(n, t, q) + KNOT_ERROR
  {
    hide NearlyGood, Clear, Distance, Dist2, Corrected, RadialFoot, NearerKnot, OnPiece, GoodPiece;
    var c := Corrected(n, p);
    CorrectedIsGood(n, p);
    assert c.kind.Arc? && c.flexionLo < c.flexionHi by { hide *; CorrectedRange(n, p); }
    ArcCandidateIsNearest(n, c, t, q);
    NearerIsNearer(n, t, Candidate(n, c, t), q);
    SameRadialFoot(n, p, t);
    NearerKnotIsNear(n, p, t);
  }

  lemma CorrectedRange(n: Numerics, p: Piece)
    ensures var c := Corrected(n, p); c.kind == p.kind && c.flexionLo == p.flexionLo && c.flexionHi == p.flexionHi
  {}

  // On a table whose arcs pass their knots by the digits that its centres have lost, no point of the
  // boundary is nearer to an outside target than where it goes by more than half a millionth of a degree
  lemma UsableTableGoesToNearest(n: Numerics, b: Boundary, flexionMax: real, t: Point, q: Point)
    requires GoodNumerics(n) && Usable(b, flexionMax)
    requires t.y >= 0.0 && !Inside(n, b, t) && OnBoundary(b, flexionMax, q)
    ensures Distance(n, t, ClampPoint(n, b, flexionMax, t)) <= Distance(n, t, q) + KNOT_ERROR
  {
    hide Dist2, Distance, Candidate, OnPiece, FloorFoot, NearlyGood, Clear, AboveFloor, Raised, Inside;
    var best := Nearest(n, b, flexionMax, t, |b|);
    NearestSoFar(n, b, flexionMax, t, |b|);
    RaisedIsNearer(t, best);
    NearerIsNearer(n, t, ClampPoint(n, b, flexionMax, t), best);
    if i :| 0 <= i < |b| && OnPiece(b[i], q) {
      NearerIsNearer(n, t, best, Candidate(n, b[i], t));
      UsableCandidate(n, b[i], t, q);
    } else {
      FloorFootIsNearest(b, flexionMax, t, q);
      NearerIsNearer(n, t, best, FloorFoot(b, flexionMax, t));
      NearerIsNearer(n, t, FloorFoot(b, flexionMax, t), q);
    }
  }

  lemma UsableCandidate(n: Numerics, p: Piece, t: Point, q: Point)
    requires GoodNumerics(n) && p.flexionLo < p.flexionHi && NearlyGood(p) && Clear(p) && OnPiece(p, q)
    ensures Distance(n, t, Candidate(n, p, t)) <= Distance(n, t, q) + KNOT_ERROR
  {
    hide Dist2, Distance, NearlyGood, Clear, OnLine, OnHalfCircle, LineFoot, RadialFoot, IsRoot;
    if p.kind.Line? {
      LineFootIsNearest(p, t, q);
      NearerIsNearer(n, t, Candidate(n, p, t), q);
    } else {
      NearArcCandidate(n, p, t, q);
    }
  }
}
