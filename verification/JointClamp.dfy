/** The workspace clamp of cpp/src/hand_core/kinematics/joint_clamp.cpp over exact reals: a target
    outside a finger's boundary, a chain of line and arc pieces, is moved to the nearest point. */
module JointClamp {
  import opened Types
  import opened ArcGeometry

  // ---------------------------------- Model ----------------------------------

  datatype Kind = Line | Arc

  // One boundary piece between its two knots; the last three fields belong to an arc
  datatype Piece = Piece(kind: Kind, flexionLo: real, flexionHi: real, abductionLo: real, abductionHi: real,
                         centerFlexion: real, centerAbduction: real, radius: real)

  // Flexion and abduction in degrees, the abduction as an absolute value
  datatype Point = Point(x: real, y: real)

  // std::sqrt and the slack of the inside test and of the piece range comparison
  datatype Numerics = Numerics(root: Root, tolerance: real)

  ghost predicate GoodNumerics(n: Numerics) { IsRoot(n.root) && n.tolerance >= 0.0 }

  type Boundary = b: seq<Piece> | |b| > 0 witness [Piece(Line, 0.0, 1.0, 0.0, 0.0, 0.0, 0.0, 0.0)]

  function Sign(r: real): real { if r > 0.0 then 1.0 else -1.0 }
  function Abs(r: real): real { if r < 0.0 then -r else r }
  function Max(a: real, b: real): real { if a < b then b else a }

  // std::clamp
  function Clamp(v: real, lo: real, hi: real): real { if v < lo then lo else if hi < v then hi else v }

  function Norm2(x: real, y: real): real { Square(x) + Square(y) }

  function Dist2(p: Point, q: Point): real { Norm2(p.x - q.x, p.y - q.y) }

  // The abduction limit a piece puts on a flexion
  function Limit(n: Numerics, p: Piece, x: real): real
    requires p.flexionLo < p.flexionHi
  {
    if p.kind.Line? then
      p.abductionLo + (x - p.flexionLo) / (p.flexionHi - p.flexionLo) * (p.abductionHi - p.abductionLo)
    else
      var d := x - p.centerFlexion;
      var underRoot := Square(p.radius) - Square(d);
      p.centerAbduction + Sign(p.radius) * n.root(if underRoot < 0.0 then 0.0 else underRoot)
  }

  predicate Ascending(b: Boundary) { forall i :: 0 <= i < |b| ==> b[i].flexionLo < b[i].flexionHi }

  // The first piece that reaches as far as x; |b| when x is past the last knot
  function PieceAt(n: Numerics, b: Boundary, x: real, from: nat): (k: nat)
    requires from <= |b|
    ensures from <= k <= |b| && (k < |b| ==> x <= b[k].flexionHi + n.tolerance)
    ensures forall i :: from <= i < k ==> x > b[i].flexionHi + n.tolerance
    decreases |b| - from
  {
    if from == |b| then from
    else if x > b[from].flexionHi + n.tolerance then PieceAt(n, b, x, from + 1)
    else from
  }

  predicate Inside(n: Numerics, b: Boundary, p: Point)
    requires Ascending(b)
  {
    var k := PieceAt(n, b, p.x, 0);
    k < |b| && p.y <= Limit(n, b[k], p.x) + n.tolerance
  }

  function NearerKnot(p: Piece, t: Point): Point {
    var lo, hi := Point(p.flexionLo, p.abductionLo), Point(p.flexionHi, p.abductionHi);
    if Dist2(t, hi) < Dist2(t, lo) then hi else lo
  }

  // The point of the segment at parameter s, from the low knot to the high one
  function Along(p: Piece, s: real): Point {
    Point(p.flexionLo + Mul(s, p.flexionHi - p.flexionLo), p.abductionLo + Mul(s, p.abductionHi - p.abductionLo))
  }

  function LineFoot(p: Piece, t: Point): Point
    requires p.flexionLo < p.flexionHi
  {
    var vx, vy := p.flexionHi - p.flexionLo, p.abductionHi - p.abductionLo;
    var dot := Mul(t.x - p.flexionLo, vx) + Mul(t.y - p.abductionLo, vy);
    PositiveLength(vx, vy);
    Along(p, Clamp(dot / Norm2(vx, vy), 0.0, 1.0))
  }

  lemma PositiveLength(vx: real, vy: real)
    requires vx > 0.0
    ensures Norm2(vx, vy) > 0.0
  {
    hide Square;
    SquarePositive(vx);
    SquareNonNegative(vy);
  }

  // On the arc's side of its centre
  predicate Above(p: Piece, t: Point) { (t.y - p.centerAbduction) * p.radius > 0.0 }

  // The target pulled along its ray from the centre
  function Foot(p: Piece, t: Point, scale: real): Point {
    Point(p.centerFlexion + (t.x - p.centerFlexion) * scale, p.centerAbduction + (t.y - p.centerAbduction) * scale)
  }

  // The foot of the perpendicular on the arc's circle, on the side of the arc
  function RadialFoot(n: Numerics, p: Piece, t: Point): Option<Point> {
    if !Above(p, t) then None
    else
      var length := n.root(Norm2(t.x - p.centerFlexion, t.y - p.centerAbduction));
      if length == 0.0 then None
      else
        var foot := Foot(p, t, Abs(p.radius) / length);
        if p.flexionLo - n.tolerance <= foot.x <= p.flexionHi + n.tolerance then Some(foot) else None
  }

  function Candidate(n: Numerics, p: Piece, t: Point): Point
    requires p.flexionLo < p.flexionHi
  {
    if p.kind.Line? then LineFoot(p, t)
    else match RadialFoot(n, p, t)
      case Some(foot) => foot
      case None => NearerKnot(p, t)
  }

  function FloorFoot(b: Boundary, flexionMax: real, t: Point): Point {
    Point(Clamp(t.x, Last(b).flexionHi, flexionMax), 0.0)
  }

  // The nearest of the floor's foot and of the first k candidates, ties going to the earlier one
  function Nearest(n: Numerics, b: Boundary, flexionMax: real, t: Point, k: nat): Point
    requires Ascending(b) && k <= |b|
  {
    if k == 0 then FloorFoot(b, flexionMax, t)
    else
      var best, next := Nearest(n, b, flexionMax, t, k - 1), Candidate(n, b[k - 1], t);
      if Dist2(t, next) < Dist2(t, best) then next else best
  }

  // ------------------------------- Boundaries --------------------------------

  predicate OnLine(p: Piece, q: Point) {
    && p.flexionLo <= q.x <= p.flexionHi
    && (q.y - p.abductionLo) * (p.flexionHi - p.flexionLo) == (q.x - p.flexionLo) * (p.abductionHi - p.abductionLo)
  }

  predicate OnHalfCircle(p: Piece, q: Point) {
    var dx, dy := q.x - p.centerFlexion, q.y - p.centerAbduction;
    Norm2(dx, dy) == Square(p.radius) && Sign(p.radius) * dy >= 0.0
  }

  predicate OnPiece(p: Piece, q: Point) {
    if p.kind.Line? then OnLine(p, q)
    else p.flexionLo <= q.x <= p.flexionHi && OnHalfCircle(p, q)
  }

  // An arc passes exactly through its two knots and is less than the half circle it lies on
  predicate GoodPiece(p: Piece) {
    && p.flexionLo < p.flexionHi
    && (p.kind.Arc? ==>
          && p.radius != 0.0
          && OnHalfCircle(p, Point(p.flexionLo, p.abductionLo))
          && OnHalfCircle(p, Point(p.flexionHi, p.abductionHi)))
  }

  predicate GoodBoundary(b: Boundary, flexionMax: real) {
    && (forall i :: 0 <= i < |b| ==> GoodPiece(b[i]))
    && Last(b).flexionHi <= flexionMax
  }

  ghost predicate OnBoundary(b: Boundary, flexionMax: real, q: Point) {
    || (exists i :: 0 <= i < |b| && OnPiece(b[i], q))
    || (q.y == 0.0 && Last(b).flexionHi <= q.x <= flexionMax)
  }

  // ---------------------------- Nearest of one piece ---------------------------

  lemma ClampWithin(v: real, lo: real, hi: real)
    requires lo <= hi
    ensures lo <= Clamp(v, lo, hi) <= hi && (lo <= v <= hi ==> Clamp(v, lo, hi) == v)
  {}

  // P - A = (ax, ay), and the segment runs from A along (vx, vy)
  lemma SegmentNearest(ax: real, ay: real, vx: real, vy: real, s: real, ratio: real)
    requires Norm2(vx, vy) > 0.0 && 0.0 <= s <= 1.0
    requires ratio == Clamp((Mul(ax, vx) + Mul(ay, vy)) / Norm2(vx, vy), 0.0, 1.0)
    ensures Norm2(ax - Mul(ratio, vx), ay - Mul(ratio, vy)) <= Norm2(ax - Mul(s, vx), ay - Mul(s, vy))
  {
    hide Norm2;
    var l, d := Norm2(vx, vy), Mul(ax, vx) + Mul(ay, vy);
    SegmentFoot(d, l, ratio, s);
    AlongSegment(ax, ay, vx, vy, s, d, l);
    AlongSegment(ax, ay, vx, vy, ratio, d, l);
  }

  // The parameter of a point of the segment
  lemma SegmentParameter(p: Piece, q: Point) returns (s: real)
    requires p.flexionLo < p.flexionHi && OnLine(p, q)
    ensures 0.0 <= s <= 1.0 && q == Along(p, s)
  {
    var vx, vy := p.flexionHi - p.flexionLo, p.abductionHi - p.abductionLo;
    s := (q.x - p.flexionLo) / vx;
    Ratio(q.x - p.flexionLo, vx);
    assert (q.y - p.abductionLo) * vx == (s * vx) * vy;
    assert (s * vx) * vy == (s * vy) * vx;
    Cancel(q.y - p.abductionLo, s * vy, vx);
  }

  lemma SegmentPointOnLine(p: Piece, s: real)
    requires p.flexionLo < p.flexionHi && 0.0 <= s <= 1.0
    ensures OnLine(p, Along(p, s))
  {
    var vx, vy := p.flexionHi - p.flexionLo, p.abductionHi - p.abductionLo;
    ProductNonNegative(s, vx);
    ProductNonNegative(1.0 - s, vx);
    assert (1.0 - s) * vx == vx - s * vx;
    assert (s * vy) * vx == (s * vx) * vy;
  }

  lemma LineFootIsNearest(p: Piece, t: Point, q: Point)
    requires p.flexionLo < p.flexionHi && OnLine(p, q)
    ensures Dist2(t, LineFoot(p, t)) <= Dist2(t, q)
    ensures OnLine(p, LineFoot(p, t))
  {
    hide Norm2, Mul, OnLine, Clamp;
    var vx, vy := p.flexionHi - p.flexionLo, p.abductionHi - p.abductionLo;
    var ax, ay := t.x - p.flexionLo, t.y - p.abductionLo;
    PositiveLength(vx, vy);
    var ratio := Clamp((Mul(ax, vx) + Mul(ay, vy)) / Norm2(vx, vy), 0.0, 1.0);
    ClampWithin((Mul(ax, vx) + Mul(ay, vy)) / Norm2(vx, vy), 0.0, 1.0);
    var s := SegmentParameter(p, q);
    SegmentPointOnLine(p, ratio);
    SegmentNearest(ax, ay, vx, vy, s, ratio);
    GapAlong(p, t, s);
    GapAlong(p, t, ratio);
  }

  lemma GapAlong(p: Piece, t: Point, s: real)
    ensures Dist2(t, Along(p, s)) ==
      Norm2(t.x - p.flexionLo - Mul(s, p.flexionHi - p.flexionLo), t.y - p.abductionLo - Mul(s, p.abductionHi - p.abductionLo))
  {
    hide Mul, Norm2;
    assert t.x - Along(p, s).x == t.x - p.flexionLo - Mul(s, p.flexionHi - p.flexionLo);
    assert t.y - Along(p, s).y == t.y - p.abductionLo - Mul(s, p.abductionHi - p.abductionLo);
  }

  lemma Cancel(a: real, b: real, v: real)
    requires v > 0.0 && a * v == b * v
    ensures a == b
  {
    ZeroProduct(a - b, v);
  }

  lemma AlongSegment(ax: real, ay: real, vx: real, vy: real, s: real, d: real, l: real)
    requires d == ax * vx + ay * vy && l == Norm2(vx, vy)
    ensures Norm2(ax - Mul(s, vx), ay - Mul(s, vy)) == Norm2(ax, ay) + (s * s * l - 2.0 * s * d)
  {
    assert l == vx * vx + vy * vy;
    SquareOfDifference(ax, s, vx);
    SquareOfDifference(ay, s, vy);
    assert s * s * l == s * s * (vx * vx) + s * s * (vy * vy);
    assert 2.0 * s * d == 2.0 * s * (ax * vx) + 2.0 * s * (ay * vy);
  }

  lemma SquareOfDifference(a: real, s: real, v: real)
    ensures Square(a - Mul(s, v)) == Square(a) + (s * s * (v * v) - 2.0 * s * (a * v))
  {
    assert (a - s * v) * (a - s * v) == a * a + (s * s * (v * v) - 2.0 * s * (a * v));
  }

  // ---------------------------- Nearest of one arc ---------------------------

  // Coordinates from the arc's centre, turned so that the arc lies above it
  function LocalX(p: Piece, q: Point): real { q.x - p.centerFlexion }
  function LocalY(p: Piece, q: Point): real { Sign(p.radius) * (q.y - p.centerAbduction) }

  // How far q lies in the direction of t, seen from the centre: on a circle, the further the nearer
  function Reach(p: Piece, t: Point, q: Point): real { Dot(LocalX(p, t), LocalY(p, t), LocalX(p, q), LocalY(p, q)) }

  function Low(p: Piece): Point { Point(p.flexionLo, p.abductionLo) }
  function High(p: Piece): Point { Point(p.flexionHi, p.abductionHi) }

  lemma LocalOnArc(p: Piece, q: Point)
    requires p.radius != 0.0 && OnHalfCircle(p, q)
    ensures OnUpperArc(Abs(p.radius), LocalX(p, q), LocalY(p, q))
  {
    SquareOfNegative(q.y - p.centerAbduction);
    SquareOfNegative(p.radius);
  }

  lemma ArcGap(p: Piece, t: Point, q: Point)
    requires p.radius != 0.0 && OnHalfCircle(p, q)
    ensures Dist2(t, q) == Norm2(t.x - p.centerFlexion, t.y - p.centerAbduction) + Square(p.radius) - 2.0 * Reach(p, t, q)
  {
    var ux, uy := t.x - p.centerFlexion, t.y - p.centerAbduction;
    var wx, wy := q.x - p.centerFlexion, q.y - p.centerAbduction;
    assert t.x - q.x == ux - wx && t.y - q.y == uy - wy;
    ExpandSquare(ux, wx);
    ExpandSquare(uy, wy);
    SignsCancel(Sign(p.radius), uy, wy);
  }

  lemma SignsCancel(s: real, a: real, b: real)
    requires s == 1.0 || s == -1.0
    ensures (s * a) * (s * b) == a * b
  {}

  lemma ExpandSquare(a: real, b: real)
    ensures Square(a - b) == Square(a) + Square(b) - 2.0 * (a * b)
  {}

  // A point that reaches further is nearer, and the better knot is at least as good as either
  lemma FurtherIsNearer(p: Piece, t: Point, q: Point, q': Point)
    requires p.radius != 0.0 && OnHalfCircle(p, q) && OnHalfCircle(p, q') && Reach(p, t, q) <= Reach(p, t, q')
    ensures Dist2(t, q') <= Dist2(t, q)
  {
    hide Reach, Dist2, OnHalfCircle, Norm2, Square;
    ArcGap(p, t, q);
    ArcGap(p, t, q');
  }

  lemma KnotIsNearest(p: Piece, t: Point, q: Point)
    requires p.kind.Arc? && GoodPiece(p) && OnPiece(p, q)
    requires Reach(p, t, q) <= Reach(p, t, Low(p)) || Reach(p, t, q) <= Reach(p, t, High(p))
    ensures Dist2(t, NearerKnot(p, t)) <= Dist2(t, q)
  {
    hide Reach, Dist2, OnHalfCircle;
    if Reach(p, t, q) <= Reach(p, t, Low(p)) {
      FurtherIsNearer(p, t, q, Low(p));
    } else {
      FurtherIsNearer(p, t, q, High(p));
    }
  }

  // On the wrong side of the centre
  lemma WrongHalf(p: Piece, t: Point, q: Point)
    requires p.kind.Arc? && GoodPiece(p) && OnPiece(p, q)
    requires !Above(p, t)
    ensures Reach(p, t, q) <= Reach(p, t, Low(p)) || Reach(p, t, q) <= Reach(p, t, High(p))
  {
    hide OnHalfCircle, Dot, OnUpperArc;
    LocalOnArc(p, Low(p));
    LocalOnArc(p, High(p));
    LocalOnArc(p, q);
    BelowCentre(t.y - p.centerAbduction, p.radius);
    EndsAreNearest(Abs(p.radius), LocalX(p, t), LocalY(p, t), LocalX(p, Low(p)), LocalY(p, Low(p)),
                   LocalX(p, High(p)), LocalY(p, High(p)), LocalX(p, q), LocalY(p, q));
  }

  lemma BelowCentre(dy: real, radius: real)
    requires radius != 0.0
    ensures dy * radius <= 0.0 <==> Sign(radius) * dy <= 0.0
  {
    if dy != 0.0 {
      ProductPositive(Abs(dy), Abs(radius));
    }
  }

  lemma ScaleToCircle(p: Piece, t: Point, length: real)
    requires p.radius != 0.0 && Above(p, t)
    requires length >= 0.0 && length * length == Norm2(t.x - p.centerFlexion, t.y - p.centerAbduction)
    ensures length > 0.0 && Abs(p.radius) / length > 0.0 && (Abs(p.radius) / length) * length == Abs(p.radius)
  {
    hide Square;
    SquarePositive(t.y - p.centerAbduction);
    SquareNonNegative(t.x - p.centerFlexion);
    Quotient(Abs(p.radius), length);
  }

  lemma Quotient(a: real, b: real)
    requires a > 0.0 && b > 0.0
    ensures a / b > 0.0 && (a / b) * b == a
  {}

  lemma FootOnCircle(p: Piece, t: Point, length: real, scale: real)
    requires p.radius != 0.0 && scale > 0.0 && scale * length == Abs(p.radius)
    requires Above(p, t)
    requires length * length == Norm2(t.x - p.centerFlexion, t.y - p.centerAbduction)
    ensures OnHalfCircle(p, Foot(p, t, scale))
    ensures LocalX(p, Foot(p, t, scale)) == scale * LocalX(p, t) && LocalY(p, Foot(p, t, scale)) == scale * LocalY(p, t)
  {
    hide Norm2, Square, Sign, Abs;
    var ux, uy := t.x - p.centerFlexion, t.y - p.centerAbduction;
    var f := Foot(p, t, scale);
    assert f.x - p.centerFlexion == ux * scale && f.y - p.centerAbduction == uy * scale;
    ScaledNorm(ux, uy, length, scale, p.radius);
    BelowCentre(uy, p.radius);
    ProductPositive(scale, Sign(p.radius) * uy);
    Reassociate(Sign(p.radius), uy, scale);
  }

  lemma Reassociate(a: real, b: real, c: real)
    ensures a * (b * c) == c * (a * b)
  {}

  lemma ScaledNorm(ux: real, uy: real, length: real, scale: real, radius: real)
    requires scale * length == Abs(radius) && length * length == Norm2(ux, uy)
    ensures Norm2(ux * scale, uy * scale) == Square(radius)
  {
    hide Square, Abs;
    SquareOfScaled(scale, ux);
    SquareOfScaled(scale, uy);
    var k := scale * scale;
    assert k * (Square(ux) + Square(uy)) == k * Square(ux) + k * Square(uy);
    EqualProducts(k, k, length * length, Square(ux) + Square(uy));
    SquareOfProduct(scale, length);
    EqualProducts(scale * length, Abs(radius), scale * length, Abs(radius));
    SquareOfAbs(radius);
  }

  lemma SquareOfAbs(a: real)
    ensures Abs(a) * Abs(a) == Square(a)
  {
    SquareOfNegative(a);
  }

  lemma SquareOfScaled(s: real, a: real)
    ensures Square(a * s) == (s * s) * Square(a)
  {
    SquareOfProduct(a, s);
  }

  lemma ReachScales(p: Piece, t: Point, scale: real, f: Point, q: Point)
    requires LocalX(p, f) == scale * LocalX(p, t) && LocalY(p, f) == scale * LocalY(p, t)
    ensures Dot(LocalX(p, f), LocalY(p, f), LocalX(p, q), LocalY(p, q)) == scale * Reach(p, t, q)
  {
    Factor(scale, LocalX(p, t), LocalX(p, q), LocalY(p, t), LocalY(p, q));
  }

  lemma Factor(s: real, a: real, b: real, c: real, d: real)
    ensures (s * a) * b + (s * c) * d == s * (a * b + c * d)
  {}

  lemma Unscale(s: real, a: real, b: real)
    requires s > 0.0 && s * a <= s * b
    ensures a <= b
  {
    if a > b {
      ProductPositive(s, a - b);
    }
  }

  // Comparing projections on the foot compares projections on the target
  lemma ReachCompares(p: Piece, t: Point, scale: real, f: Point, q: Point, knot: Point)
    requires scale > 0.0 && LocalX(p, f) == scale * LocalX(p, t) && LocalY(p, f) == scale * LocalY(p, t)
    requires Dot(LocalX(p, f), LocalY(p, f), LocalX(p, q), LocalY(p, q))
          <= Dot(LocalX(p, f), LocalY(p, f), LocalX(p, knot), LocalY(p, knot))
    ensures Reach(p, t, q) <= Reach(p, t, knot)
  {
    hide LocalX, LocalY, Dot, Reach;
    ReachScales(p, t, scale, f, q);
    ReachScales(p, t, scale, f, knot);
    Unscale(scale, Reach(p, t, q), Reach(p, t, knot));
  }

  // The foot lies before the low knot or past the high one
  lemma OffTheArc(p: Piece, t: Point, q: Point, length: real, scale: real)
    requires p.kind.Arc? && GoodPiece(p) && OnPiece(p, q)
    requires Above(p, t)
    requires length * length == Norm2(t.x - p.centerFlexion, t.y - p.centerAbduction)
    requires scale > 0.0 && scale * length == Abs(p.radius)
    requires Foot(p, t, scale).x <= p.flexionLo || Foot(p, t, scale).x >= p.flexionHi
    ensures Reach(p, t, q) <= Reach(p, t, Low(p)) || Reach(p, t, q) <= Reach(p, t, High(p))
  {
    hide OnHalfCircle, Dot, OnUpperArc, Foot, LocalY, Norm2, Reach;
    var f := Foot(p, t, scale);
    FootOnCircle(p, t, length, scale);
    LocalOnArc(p, f);
    LocalOnArc(p, q);
    var r := Abs(p.radius);
    var knot := if f.x <= p.flexionLo then Low(p) else High(p);
    LocalOnArc(p, knot);
    if f.x <= p.flexionLo {
      ProjectionFalls(r, LocalX(p, f), LocalY(p, f), LocalX(p, knot), LocalY(p, knot), LocalX(p, q), LocalY(p, q));
    } else {
      MirroredArc(r, LocalX(p, f), LocalY(p, f));
      MirroredArc(r, LocalX(p, knot), LocalY(p, knot));
      MirroredArc(r, LocalX(p, q), LocalY(p, q));
      ProjectionFalls(r, -LocalX(p, f), LocalY(p, f), -LocalX(p, knot), LocalY(p, knot), -LocalX(p, q), LocalY(p, q));
      MirroredDot(LocalX(p, f), LocalY(p, f), LocalX(p, knot), LocalY(p, knot));
      MirroredDot(LocalX(p, f), LocalY(p, f), LocalX(p, q), LocalY(p, q));
    }
    ReachCompares(p, t, scale, f, q, knot);
  }

  lemma MirroredArc(r: real, x: real, y: real)
    requires OnUpperArc(r, x, y)
    ensures OnUpperArc(r, -x, y)
  {
    SquareOfNegative(x);
  }

  lemma MirroredDot(ax: real, ay: real, ex: real, ey: real)
    ensures Dot(-ax, ay, -ex, ey) == Dot(ax, ay, ex, ey)
  {}

  lemma FootIsNearest(p: Piece, t: Point, q: Point, length: real, scale: real)
    requires p.kind.Arc? && GoodPiece(p) && OnHalfCircle(p, q)
    requires Above(p, t)
    requires length >= 0.0 && length * length == Norm2(t.x - p.centerFlexion, t.y - p.centerAbduction)
    requires scale > 0.0 && scale * length == Abs(p.radius)
    ensures Reach(p, t, q) <= Reach(p, t, Foot(p, t, scale))
  {
    hide OnHalfCircle, OnUpperArc, Foot, Dot;
    var f, r := Foot(p, t, scale), Abs(p.radius);
    var ux, uy := LocalX(p, t), LocalY(p, t);
    FootOnCircle(p, t, length, scale);
    LocalOnArc(p, q);
    LocalNorm(p, t);
    CauchyOnArc(ux, uy, length, LocalX(p, q), LocalY(p, q), r);
    OwnReach(p, t, scale, f, length);
    assert scale * (length * length) == (scale * length) * length;
  }

  lemma CauchyOnArc(ux: real, uy: real, m: real, x: real, y: real, r: real)
    requires OnUpperArc(r, x, y) && m >= 0.0 && r >= 0.0 && m * m == ux * ux + uy * uy
    ensures Dot(ux, uy, x, y) <= m * r
  {
    hide Dot;
    CauchySchwarz(ux, uy, m, x, y, r);
  }

  lemma LocalNorm(p: Piece, t: Point)
    ensures LocalX(p, t) * LocalX(p, t) + LocalY(p, t) * LocalY(p, t) == Norm2(t.x - p.centerFlexion, t.y - p.centerAbduction)
  {
    SignsCancel(Sign(p.radius), t.y - p.centerAbduction, t.y - p.centerAbduction);
  }

  lemma OwnReach(p: Piece, t: Point, scale: real, f: Point, length: real)
    requires LocalX(p, f) == scale * LocalX(p, t) && LocalY(p, f) == scale * LocalY(p, t)
    requires length * length == LocalX(p, t) * LocalX(p, t) + LocalY(p, t) * LocalY(p, t)
    ensures Reach(p, t, f) == scale * (length * length)
  {
    var ux, uy := LocalX(p, t), LocalY(p, t);
    assert ux * (scale * ux) == scale * (ux * ux) && uy * (scale * uy) == scale * (uy * uy);
  }

  lemma RootLength(n: Numerics, p: Piece, t: Point) returns (length: real)
    requires GoodNumerics(n)
    ensures length == n.root(Norm2(t.x - p.centerFlexion, t.y - p.centerAbduction))
    ensures length >= 0.0 && length * length == Norm2(t.x - p.centerFlexion, t.y - p.centerAbduction)
  {
    SquareNonNegative(t.x - p.centerFlexion);
    SquareNonNegative(t.y - p.centerAbduction);
    length := n.root(Norm2(t.x - p.centerFlexion, t.y - p.centerAbduction));
  }

  lemma RadialFootIs(n: Numerics, p: Piece, t: Point, length: real)
    requires Above(p, t)
    requires length > 0.0 && length == n.root(Norm2(t.x - p.centerFlexion, t.y - p.centerAbduction))
    ensures var f := Foot(p, t, Abs(p.radius) / length);
            RadialFoot(n, p, t) ==
              if p.flexionLo - n.tolerance <= f.x <= p.flexionHi + n.tolerance then Some(f) else None
  {
    hide Norm2, Abs;
  }

  // Whatever the slack of the range test, an arc's candidate is at least as near as all its points
  lemma ArcCandidateIsNearest(n: Numerics, p: Piece, t: Point, q: Point)
    requires GoodNumerics(n) && p.kind.Arc? && GoodPiece(p) && OnPiece(p, q)
    ensures Dist2(t, Candidate(n, p, t)) <= Dist2(t, q)
    ensures OnHalfCircle(p, Candidate(n, p, t))
  {
    hide Reach, Dist2, OnHalfCircle, Norm2, Above;
    if !Above(p, t) {
      WrongHalf(p, t, q);
      KnotIsNearest(p, t, q);
      KnotOnCircle(p, t);
      assert Candidate(n, p, t) == NearerKnot(p, t);
    } else {
      ArcCandidateAbove(n, p, t, q);
    }
  }

  lemma ArcCandidateAbove(n: Numerics, p: Piece, t: Point, q: Point)
    requires GoodNumerics(n) && p.kind.Arc? && GoodPiece(p) && OnPiece(p, q)
    requires Above(p, t)
    ensures Dist2(t, Candidate(n, p, t)) <= Dist2(t, q)
    ensures OnHalfCircle(p, Candidate(n, p, t))
  {
    hide Reach, Dist2, OnHalfCircle, Norm2, IsRoot, RadialFoot, NearerKnot, Abs, Above;
    var length := RootLength(n, p, t);
    ScaleToCircle(p, t, length);
    RadialFootIs(n, p, t, length);
    var scale := Abs(p.radius) / length;
    var f := Foot(p, t, scale);
    FootOnCircle(p, t, length, scale);
    if p.flexionLo - n.tolerance <= f.x <= p.flexionHi + n.tolerance {
      FootIsNearest(p, t, q, length, scale);
      FurtherIsNearer(p, t, q, f);
    } else {
      OffTheArc(p, t, q, length, scale);
      KnotIsNearest(p, t, q);
      KnotOnCircle(p, t);
    }
  }

  lemma KnotOnCircle(p: Piece, t: Point)
    requires p.kind.Arc? && GoodPiece(p)
    ensures OnHalfCircle(p, NearerKnot(p, t))
  {}

  // ------------------------- Nearest of the boundary ---------------------------

  lemma CandidateIsNearest(n: Numerics, p: Piece, t: Point, q: Point)
    requires GoodNumerics(n) && GoodPiece(p) && OnPiece(p, q)
    ensures Dist2(t, Candidate(n, p, t)) <= Dist2(t, q)
  {
    hide Dist2, OnLine, OnHalfCircle, LineFoot, RadialFoot, IsRoot;
    if p.kind.Line? {
      LineFootIsNearest(p, t, q);
    } else {
      ArcCandidateIsNearest(n, p, t, q);
    }
  }

  lemma FloorFootIsNearest(b: Boundary, flexionMax: real, t: Point, q: Point)
    requires Last(b).flexionHi <= q.x <= flexionMax && q.y == 0.0
    ensures Dist2(t, FloorFoot(b, flexionMax, t)) <= Dist2(t, q)
  {
    var f := FloorFoot(b, flexionMax, t);
    if f.x != t.x {
      SquareGrows(if t.x < f.x then f.x - t.x else t.x - f.x, if t.x < f.x then q.x - t.x else t.x - q.x);
      SquareMirrored(t.x - f.x);
      SquareMirrored(t.x - q.x);
    } else {
      SquareNonNegative(t.x - q.x);
    }
  }

  lemma SquareGrows(a: real, b: real)
    requires 0.0 <= a <= b
    ensures Square(a) <= Square(b)
  {
    ProductNonNegative(b - a, b + a);
    DifferenceOfSquares(b, a);
  }

  // The fold keeps the best of what it has seen
  lemma {:induction false} NearestSoFar(n: Numerics, b: Boundary, flexionMax: real, t: Point, k: nat)
    requires Ascending(b) && k <= |b|
    ensures Dist2(t, Nearest(n, b, flexionMax, t, k)) <= Dist2(t, FloorFoot(b, flexionMax, t))
    ensures forall i :: 0 <= i < k ==> Dist2(t, Nearest(n, b, flexionMax, t, k)) <= Dist2(t, Candidate(n, b[i], t))
    ensures || Nearest(n, b, flexionMax, t, k) == FloorFoot(b, flexionMax, t)
            || exists i :: 0 <= i < k && Nearest(n, b, flexionMax, t, k) == Candidate(n, b[i], t)
  {
    hide Dist2, Candidate, FloorFoot;
    if k > 0 {
      NearestSoFar(n, b, flexionMax, t, k - 1);
    }
  }

  function Raised(q: Point): Point { q.(y := Max(0.0, q.y)) }

  // Where a target ends up: the loop of the inside test, then the projection
  function ClampPoint(n: Numerics, b: Boundary, flexionMax: real, t: Point): Point
    requires Ascending(b)
  {
    if Inside(n, b, t) then t else Raised(Nearest(n, b, flexionMax, t, |b|))
  }

  lemma RaisedIsNearer(t: Point, q: Point)
    requires t.y >= 0.0
    ensures Dist2(t, Raised(q)) <= Dist2(t, q)
  {
    if q.y < 0.0 {
      SquareGrows(t.y, t.y - q.y);
    }
  }

  // The projection of an outside target is the nearest point of the whole boundary, also where the
  // target lies on the wrong side of an arc's centre or off the end of an arc
  lemma OutsideGoesToNearest(n: Numerics, b: Boundary, flexionMax: real, t: Point, q: Point)
    requires GoodNumerics(n) && GoodBoundary(b, flexionMax) && Ascending(b)
    requires t.y >= 0.0 && !Inside(n, b, t) && OnBoundary(b, flexionMax, q)
    ensures Dist2(t, ClampPoint(n, b, flexionMax, t)) <= Dist2(t, q)
  {
    hide Dist2, Candidate, OnPiece, FloorFoot, GoodPiece, Raised, Inside;
    var best := Nearest(n, b, flexionMax, t, |b|);
    NearestSoFar(n, b, flexionMax, t, |b|);
    RaisedIsNearer(t, best);
    if i :| 0 <= i < |b| && OnPiece(b[i], q) {
      CandidateIsNearest(n, b[i], t, q);
    } else {
      FloorFootIsNearest(b, flexionMax, t, q);
    }
  }

  // --------------------------- Staying on the boundary -------------------------

  const EXACT: real := 0.0

  // With an exact range test the candidate is a point of the piece
  lemma CandidateOnPiece(n: Numerics, p: Piece, t: Point)
    requires GoodNumerics(n) && n.tolerance == EXACT && GoodPiece(p)
    ensures OnPiece(p, Candidate(n, p, t))
  {
    hide OnLine, OnHalfCircle, LineFoot, RadialFoot, IsRoot;
    if p.kind.Line? {
      KnotsOnLine(p);
      LineFootIsNearest(p, t, Low(p));
    } else {
      ArcCandidateIsNearest(n, p, t, Low(p));
      match RadialFoot(n, p, t)
      case Some(foot) => RadialFootInRange(n, p, t);
      case None =>
    }
  }

  lemma RadialFootInRange(n: Numerics, p: Piece, t: Point)
    requires RadialFoot(n, p, t).Some?
    ensures p.flexionLo - n.tolerance <= RadialFoot(n, p, t).value.x <= p.flexionHi + n.tolerance
  {
    hide Norm2, Abs;
  }

  lemma KnotsOnLine(p: Piece)
    requires p.flexionLo < p.flexionHi
    ensures OnLine(p, Low(p)) && OnLine(p, High(p))
  {}

  lemma NearestOnBoundary(n: Numerics, b: Boundary, flexionMax: real, t: Point)
    requires GoodNumerics(n) && n.tolerance == EXACT && GoodBoundary(b, flexionMax) && Ascending(b)
    ensures OnBoundary(b, flexionMax, Nearest(n, b, flexionMax, t, |b|))
  {
    hide Candidate, OnPiece, GoodPiece, Dist2;
    NearestSoFar(n, b, flexionMax, t, |b|);
    if i :| 0 <= i < |b| && Nearest(n, b, flexionMax, t, |b|) == Candidate(n, b[i], t) {
      CandidateOnPiece(n, b[i], t);
    }
  }

  // ------------------------------ Well-formed tables ---------------------------

  // Knots meet, the chain starts at flexion 0, and no piece dips below the floor: a hollow arc
  // falls or rises all the way
  predicate Chained(b: Boundary) {
    && b[0].flexionLo == 0.0
    && forall i :: 0 < i < |b| ==> Low(b[i]) == High(b[i - 1])
  }

  predicate AboveFloor(p: Piece) {
    && p.abductionLo >= 0.0 && p.abductionHi >= 0.0
    && (p.kind.Arc? && p.radius < 0.0 ==> p.centerFlexion <= p.flexionLo || p.flexionHi <= p.centerFlexion)
  }

  predicate WellFormed(b: Boundary, flexionMax: real) {
    && GoodBoundary(b, flexionMax) && Ascending(b) && Chained(b)
    && forall i :: 0 <= i < |b| ==> AboveFloor(b[i])
  }

  lemma LineAboveFloor(p: Piece, q: Point)
    requires p.flexionLo < p.flexionHi && OnLine(p, q) && AboveFloor(p)
    ensures q.y >= 0.0
  {
    var s := SegmentParameter(p, q);
    ProductNonNegative(s, p.abductionHi);
    ProductNonNegative(1.0 - s, p.abductionLo);
    assert p.abductionLo + s * (p.abductionHi - p.abductionLo) == (1.0 - s) * p.abductionLo + s * p.abductionHi;
  }

  lemma HollowArcAboveFloor(p: Piece, q: Point)
    requires p.kind.Arc? && p.radius < 0.0 && GoodPiece(p) && OnPiece(p, q) && AboveFloor(p)
    ensures q.y >= 0.0
  {
    hide OnHalfCircle;
    var knot := if p.centerFlexion <= p.flexionLo then Low(p) else High(p);
    LocalOnArc(p, knot);
    LocalOnArc(p, q);
    var kx, wx := Abs(LocalX(p, knot)), Abs(LocalX(p, q));
    SquareGrows(kx, wx);
    SquareOfAbs(LocalX(p, knot));
    SquareOfAbs(LocalX(p, q));
    SquareOrder(LocalY(p, q), LocalY(p, knot));
  }

  lemma FullArcAboveFloor(p: Piece, q: Point)
    requires p.kind.Arc? && p.radius > 0.0 && GoodPiece(p) && OnPiece(p, q) && AboveFloor(p)
    ensures q.y >= 0.0
  {
    hide OnHalfCircle, OnUpperArc, LocalX, LocalY;
    PieceRange(p, q);
    LocalOnArc(p, Low(p));
    LocalOnArc(p, High(p));
    LocalOnArc(p, q);
    var s := FractionAlong(p, q);
    LocalHeight(p, Low(p));
    LocalHeight(p, High(p));
    LocalHeight(p, q);
    ChordAbove(p.radius, s, LocalX(p, Low(p)), LocalY(p, Low(p)), LocalX(p, High(p)), LocalY(p, High(p)),
               LocalX(p, q), LocalY(p, q), -p.centerAbduction);
  }

  lemma LocalHeight(p: Piece, q: Point)
    requires p.radius > 0.0
    ensures LocalY(p, q) == q.y - p.centerAbduction
  {}

  lemma FractionAlong(p: Piece, q: Point) returns (s: real)
    requires p.flexionLo < p.flexionHi && p.flexionLo <= q.x <= p.flexionHi
    ensures 0.0 <= s <= 1.0
    ensures s * (LocalX(p, High(p)) - LocalX(p, Low(p))) == LocalX(p, q) - LocalX(p, Low(p))
  {
    s := Fraction(q.x - p.flexionLo, p.flexionHi - p.flexionLo);
  }

  lemma ChordAbove(r: real, s: real, ax: real, ay: real, ex: real, ey: real, x: real, y: real, floor: real)
    requires r > 0.0 && OnUpperArc(r, ax, ay) && OnUpperArc(r, ex, ey) && OnUpperArc(r, x, y)
    requires 0.0 <= s <= 1.0 && s * (ex - ax) == x - ax && ay >= floor && ey >= floor
    ensures y >= floor
  {
    hide OnUpperArc;
    Mean(s, ax, ex, x);
    ChordBelowArc(r, s, ax, ay, ex, ey, x, y);
    MeanAbove(s, ay, ey, floor);
  }

  lemma MeanAbove(s: real, a: real, e: real, floor: real)
    requires 0.0 <= s <= 1.0 && a >= floor && e >= floor
    ensures (1.0 - s) * a + s * e >= floor
  {
    ProductNonNegative(1.0 - s, a - floor);
    ProductNonNegative(s, e - floor);
  }

  lemma BoundaryAboveFloor(b: Boundary, flexionMax: real, q: Point)
    requires WellFormed(b, flexionMax) && OnBoundary(b, flexionMax, q)
    ensures q.y >= 0.0
  {
    hide OnHalfCircle, OnLine;
    if i :| 0 <= i < |b| && OnPiece(b[i], q) {
      if b[i].kind.Line? {
        LineAboveFloor(b[i], q);
      } else if b[i].radius < 0.0 {
        HollowArcAboveFloor(b[i], q);
      } else {
        FullArcAboveFloor(b[i], q);
      }
    }
  }

  // ----------------------------- Boundary is inside ----------------------------

  // A piece's limit is the height of its own point
  lemma LimitOfLine(n: Numerics, p: Piece, q: Point)
    requires p.kind.Line? && p.flexionLo < p.flexionHi && OnLine(p, q)
    ensures Limit(n, p, q.x) == q.y
  {
    hide Along, OnLine;
    var s := SegmentParameter(p, q);
    AlongOffset(p, s);
    RatioOfProduct(s, p.flexionHi - p.flexionLo, q.x - p.flexionLo);
  }

  lemma AlongOffset(p: Piece, s: real)
    ensures Along(p, s).x - p.flexionLo == s * (p.flexionHi - p.flexionLo)
    ensures Along(p, s).y == p.abductionLo + s * (p.abductionHi - p.abductionLo)
  {}

  lemma RatioOfProduct(s: real, d: real, n: real)
    requires d > 0.0 && n == s * d
    ensures n / d == s
  {
    Cancel(n / d, s, d);
  }

  lemma LimitOfArc(n: Numerics, p: Piece, q: Point)
    requires GoodNumerics(n) && p.kind.Arc? && GoodPiece(p) && OnPiece(p, q)
    ensures Limit(n, p, q.x) == q.y
  {
    var dx, dy := q.x - p.centerFlexion, q.y - p.centerAbduction;
    SquareNonNegative(dy);
    var under := Square(p.radius) - Square(dx);
    assert under == Square(dy);
    SameRoot(n.root(under), Sign(p.radius) * dy, under, dy);
  }

  lemma SameRoot(r: real, a: real, under: real, dy: real)
    requires r >= 0.0 && a >= 0.0 && r * r == under == Square(dy) && (a == dy || a == -dy)
    ensures r == a
  {
    SquareOfNegative(dy);
    SquareOrder(r, a);
    SquareOrder(a, r);
  }

  lemma LimitOfPiece(n: Numerics, p: Piece, q: Point)
    requires GoodNumerics(n) && GoodPiece(p) && OnPiece(p, q)
    ensures Limit(n, p, q.x) == q.y
  {
    hide OnHalfCircle, OnLine, Limit, IsRoot;
    if p.kind.Line? {
      LimitOfLine(n, p, q);
    } else {
      LimitOfArc(n, p, q);
    }
  }

  lemma KnotsOnPiece(p: Piece)
    requires GoodPiece(p)
    ensures OnPiece(p, Low(p)) && OnPiece(p, High(p))
  {
    hide OnHalfCircle;
  }

  lemma {:induction false} KnotsAscend(b: Boundary, flexionMax: real, k: nat, i: nat)
    requires WellFormed(b, flexionMax) && k < i < |b|
    ensures b[k].flexionHi <= b[i].flexionLo && (k + 1 < i ==> b[k].flexionHi < b[i].flexionLo)
    decreases i
  {
    hide GoodBoundary, AboveFloor;
    assert Low(b[i]) == High(b[i - 1]);
    if k + 1 < i {
      KnotsAscend(b, flexionMax, k, i - 1);
    }
  }

  lemma {:induction false} FirstKnotIsZero(b: Boundary, flexionMax: real, i: nat)
    requires WellFormed(b, flexionMax) && i < |b|
    ensures b[i].flexionLo >= 0.0
  {
    if i > 0 {
      KnotsAscend(b, flexionMax, 0, i);
    }
  }

  lemma PieceRange(p: Piece, q: Point)
    requires OnPiece(p, q)
    ensures p.flexionLo <= q.x <= p.flexionHi
  {
    hide OnHalfCircle;
  }

  lemma PieceIsInside(n: Numerics, b: Boundary, flexionMax: real, q: Point, i: nat)
    requires GoodNumerics(n) && n.tolerance == EXACT && WellFormed(b, flexionMax)
    requires i < |b| && OnPiece(b[i], q)
    ensures Inside(n, b, q)
  {
    hide OnPiece, Limit, IsRoot, GoodPiece, AboveFloor;
    var k := PieceAt(n, b, q.x, 0);
    PieceRange(b[i], q);
    assert GoodPiece(b[k]) && GoodPiece(b[i]);
    LimitOfPiece(n, b[i], q);
    if k < i {
      // On a seam: the piece before it ends in the same knot
      KnotsAscend(b, flexionMax, k, i);
      assert i == k + 1 && Low(b[i]) == High(b[k]);
      KnotsOnPiece(b[i]);
      KnotsOnPiece(b[k]);
      LimitOfPiece(n, b[i], Low(b[i]));
      LimitOfPiece(n, b[k], High(b[k]));
    }
  }

  lemma DistanceToItself(q: Point, r: Point)
    ensures Dist2(q, r) >= 0.0 == Dist2(q, q)
    ensures Dist2(q, r) == 0.0 ==> q == r
  {
    hide Square;
    SquareNonNegative(q.x - r.x);
    SquareNonNegative(q.y - r.y);
    if q.x != r.x {
      SquarePositive(q.x - r.x);
    }
    if q.y != r.y {
      SquarePositive(q.y - r.y);
    }
    assert Square(0.0) == 0.0 by { ZeroSquare(); }
  }

  lemma ZeroSquare()
    ensures Square(0.0) == 0.0
  {}

  // Points of the boundary stay where they are
  lemma BoundaryIsFixed(n: Numerics, b: Boundary, flexionMax: real, q: Point)
    requires GoodNumerics(n) && n.tolerance == EXACT && WellFormed(b, flexionMax) && OnBoundary(b, flexionMax, q)
    ensures ClampPoint(n, b, flexionMax, q) == q
  {
    hide OnPiece, Dist2, GoodPiece, AboveFloor, Inside, Candidate;
    if i :| 0 <= i < |b| && OnPiece(b[i], q) {
      PieceIsInside(n, b, flexionMax, q, i);
    } else {
      NearestSoFar(n, b, flexionMax, q, |b|);
      DistanceToItself(q, Nearest(n, b, flexionMax, q, |b|));
    }
  }

  // The clamp is a projection onto the workspace
  lemma ClampPointTwice(n: Numerics, b: Boundary, flexionMax: real, t: Point)
    requires GoodNumerics(n) && n.tolerance == EXACT && WellFormed(b, flexionMax) && t.x >= 0.0 && t.y >= 0.0
    ensures var c := ClampPoint(n, b, flexionMax, t);
            c.x >= 0.0 && c.y >= 0.0 && ClampPoint(n, b, flexionMax, c) == c
  {
    hide Nearest, Inside, OnBoundary, GoodPiece, AboveFloor, IsRoot;
    if !Inside(n, b, t) {
      var q := Nearest(n, b, flexionMax, t, |b|);
      NearestOnBoundary(n, b, flexionMax, t);
      BoundaryAboveFloor(b, flexionMax, q);
      BoundaryIsRight(b, flexionMax, q);
      BoundaryIsFixed(n, b, flexionMax, q);
    }
  }

  lemma BoundaryIsRight(b: Boundary, flexionMax: real, q: Point)
    requires WellFormed(b, flexionMax) && OnBoundary(b, flexionMax, q)
    ensures q.x >= 0.0
  {
    hide OnHalfCircle;
    FirstKnotIsZero(b, flexionMax, |b| - 1);
    if i :| 0 <= i < |b| && OnPiece(b[i], q) {
      FirstKnotIsZero(b, flexionMax, i);
    }
  }

  // --------------------------- The workspace itself ----------------------------

  lemma ArcReachesAcross(p: Piece, x: real)
    requires p.kind.Arc? && GoodPiece(p) && p.flexionLo <= x <= p.flexionHi
    ensures Square(x - p.centerFlexion) <= Square(p.radius)
  {
    var d, lo, hi := x - p.centerFlexion, p.flexionLo - p.centerFlexion, p.flexionHi - p.centerFlexion;
    SquareNonNegative(p.abductionLo - p.centerAbduction);
    SquareNonNegative(p.abductionHi - p.centerAbduction);
    if d >= 0.0 {
      SquareGrows(d, hi);
    } else {
      SquareGrows(-d, -lo);
      SquareMirrored(d);
      SquareMirrored(lo);
    }
  }

  lemma LimitOnArc(n: Numerics, p: Piece, x: real)
    requires GoodNumerics(n) && p.kind.Arc? && GoodPiece(p) && p.flexionLo <= x <= p.flexionHi
    ensures OnPiece(p, Point(x, Limit(n, p, x)))
  {
    ArcReachesAcross(p, x);
    var root := n.root(Square(p.radius) - Square(x - p.centerFlexion));
    SquareMirrored(root);
  }

  lemma LimitOnLine(n: Numerics, p: Piece, x: real)
    requires p.kind.Line? && GoodPiece(p) && p.flexionLo <= x <= p.flexionHi
    ensures OnPiece(p, Point(x, Limit(n, p, x)))
  {
    var span := p.flexionHi - p.flexionLo;
    Ratio(x - p.flexionLo, span);
    SegmentPointOnLine(p, (x - p.flexionLo) / span);
  }

  lemma PieceAtCovers(n: Numerics, b: Boundary, flexionMax: real, x: real)
    requires n.tolerance == EXACT && WellFormed(b, flexionMax) && x >= 0.0
    ensures var k := PieceAt(n, b, x, 0); k < |b| ==> b[k].flexionLo <= x <= b[k].flexionHi
  {
    hide GoodPiece, AboveFloor;
    var k := PieceAt(n, b, x, 0);
    if 0 < k < |b| {
      assert Low(b[k]) == High(b[k - 1]);
    }
  }

  // What the inside test decides: a point is inside exactly when it is at or below a point of the
  // boundary curve
  lemma InsideIsUnderBoundary(n: Numerics, b: Boundary, flexionMax: real, t: Point)
    requires GoodNumerics(n) && n.tolerance == EXACT && WellFormed(b, flexionMax) && t.x >= 0.0
    ensures Inside(n, b, t) <==> exists i, y :: 0 <= i < |b| && OnPiece(b[i], Point(t.x, y)) && t.y <= y
  {
    hide OnPiece, GoodPiece, AboveFloor, Limit, IsRoot;
    if i, y :| 0 <= i < |b| && OnPiece(b[i], Point(t.x, y)) && t.y <= y {
      PieceIsInside(n, b, flexionMax, Point(t.x, y), i);
    }
    if Inside(n, b, t) {
      PieceAtCovers(n, b, flexionMax, t.x);
      var p := b[PieceAt(n, b, t.x, 0)];
      assert GoodPiece(p);
      LimitOnPiece(n, p, t.x);
    }
  }

  // And at any slack: past the slack of the piece before it, a piece lets a point be above it by the slack
  lemma InsideUpToSlack(n: Numerics, b: Boundary, flexionMax: real, t: Point, i: nat)
    requires GoodNumerics(n) && WellFormed(b, flexionMax) && i < |b| && b[i].flexionLo <= t.x <= b[i].flexionHi
    requires i > 0 ==> t.x > b[i].flexionLo + n.tolerance
    ensures Inside(n, b, t) <==> exists y :: OnPiece(b[i], Point(t.x, y)) && t.y <= y + n.tolerance
  {
    hide OnPiece, GoodPiece, AboveFloor, Limit, IsRoot;
    var k := PieceAt(n, b, t.x, 0);
    if k < i {
      KnotsAscend(b, flexionMax, k, i);
    }
    assert GoodPiece(b[i]);
    LimitOnPiece(n, b[i], t.x);
    forall y | OnPiece(b[i], Point(t.x, y))
      ensures y == Limit(n, b[i], t.x)
    {
      LimitOfPiece(n, b[i], Point(t.x, y));
    }
  }

  lemma LimitOnPiece(n: Numerics, p: Piece, x: real)
    requires GoodNumerics(n) && GoodPiece(p) && p.flexionLo <= x <= p.flexionHi
    ensures OnPiece(p, Point(x, Limit(n, p, x)))
  {
    hide OnPiece, GoodPiece, Limit, IsRoot;
    if p.kind.Line? {
      LimitOnLine(n, p, x);
    } else {
      LimitOnArc(n, p, x);
    }
  }

  // ------------------------------ No abduction ---------------------------------

  lemma FloorBeatsPiece(n: Numerics, b: Boundary, flexionMax: real, t: Point, i: nat)
    requires GoodNumerics(n) && n.tolerance == EXACT && WellFormed(b, flexionMax)
    requires t.y == 0.0 && t.x > Last(b).flexionHi && i < |b|
    ensures Dist2(t, FloorFoot(b, flexionMax, t)) <= Dist2(t, Candidate(n, b[i], t))
  {
    hide OnPiece, Candidate, AboveFloor, IsRoot, GoodPiece, Norm2;
    var c, f := Candidate(n, b[i], t), FloorFoot(b, flexionMax, t);
    assert GoodPiece(b[i]);
    CandidateOnPiece(n, b[i], t);
    PieceRange(b[i], c);
    if i < |b| - 1 {
      KnotsAscend(b, flexionMax, i, |b| - 1);
    }
    assert 0.0 <= t.x - f.x <= t.x - c.x && t.y - f.y == 0.0;
    FlatIsShorter(t.x - f.x, t.x - c.x, t.y - c.y);
  }

  lemma FlatIsShorter(a: real, b: real, c: real)
    requires 0.0 <= a <= b
    ensures Norm2(a, 0.0) <= Norm2(b, c)
  {
    SquareGrows(a, b);
    SquareNonNegative(c);
    ZeroSquare();
  }

  lemma {:induction false} FloorWins(n: Numerics, b: Boundary, flexionMax: real, t: Point, k: nat)
    requires GoodNumerics(n) && n.tolerance == EXACT && WellFormed(b, flexionMax)
    requires t.y == 0.0 && t.x > Last(b).flexionHi && k <= |b|
    ensures Nearest(n, b, flexionMax, t, k) == FloorFoot(b, flexionMax, t)
  {
    hide Candidate, FloorFoot, Dist2, GoodPiece, AboveFloor, IsRoot;
    if k > 0 {
      FloorWins(n, b, flexionMax, t, k - 1);
      FloorBeatsPiece(n, b, flexionMax, t, k - 1);
    }
  }

  // A target without abduction keeps none
  lemma NoAbductionStaysNone(n: Numerics, b: Boundary, flexionMax: real, t: Point)
    requires GoodNumerics(n) && n.tolerance == EXACT && WellFormed(b, flexionMax) && t.x >= 0.0 && t.y == 0.0
    ensures ClampPoint(n, b, flexionMax, t).y == 0.0
  {
    hide OnPiece, Limit, Nearest, GoodPiece, AboveFloor, IsRoot;
    if !Inside(n, b, t) {
      var k := PieceAt(n, b, t.x, 0);
      if k < |b| {
        PieceAtCovers(n, b, flexionMax, t.x);
        assert GoodPiece(b[k]);
        LimitOnPiece(n, b[k], t.x);
        BoundaryAboveFloor(b, flexionMax, Point(t.x, Limit(n, b[k], t.x)));
        assert false;
      }
      FloorWins(n, b, flexionMax, t, |b|);
    }
  }
}
