/** The whole clamp of cpp/src/hand_core/kinematics/joint_clamp.cpp: sixteen joint targets in
    radians, clamped in place. Five of them are coupled with a neighbour through a finger's
    workspace, and the last joint of a long finger follows the pair clamped before it. */
module JointTargets {
  import opened Types
  import opened ArcGeometry
  import opened JointClamp

  const DEG2RAD: real := 3.14159265358979323846 / 180.0

  type Targets = t: seq<real> | |t| == ACTUATOR_COUNT witness seq(ACTUATOR_COUNT, _ => 0.0)

  // What a hand type is built with; a hand without distal floor has the floor 0
  datatype Limits = Limits(
    thumb: Boundary, thumbFlexionMax: real, long: Boundary, longFlexionMax: real,
    thumbJ0Max: real, thumbJ3Max: real, longDistalMax: real,
    distalFloor: (real, real) -> real)

  predicate HasOrder(h: Limits) { Ascending(h.thumb) && Ascending(h.long) }

  // Any floor will do that is never negative and looks at the size of the abduction only
  ghost predicate GoodLimits(h: Limits) {
    && WellFormed(h.thumb, h.thumbFlexionMax) && WellFormed(h.long, h.longFlexionMax)
    && h.thumbJ0Max >= 0.0 && h.thumbJ3Max >= 0.0 && h.longDistalMax >= 0.0
    && (forall x, y :: h.distalFloor(x, y) >= 0.0)
    && (forall x, y :: h.distalFloor(x, -y) == h.distalFloor(x, y))
  }

  // --------------------------------- One pair ---------------------------------

  // The coupled joints of a finger, in radians
  datatype Pair = Pair(abduction: real, flexion: real)

  function Mirror(p: Pair): Pair { p.(abduction := -p.abduction) }

  // In degrees, with the sign of the abduction taken off and a negative flexion read as 0
  function Measured(p: Pair): Point { Point(Max(0.0, p.flexion / DEG2RAD), Abs(p.abduction / DEG2RAD)) }

  function SideOf(p: Pair): real { if p.abduction / DEG2RAD < 0.0 then -1.0 else 1.0 }

  function ClampPair(n: Numerics, b: Boundary, flexionMax: real, p: Pair): Pair
    requires Ascending(b)
  {
    var t := Measured(p);
    if Inside(n, b, t) then p.(flexion := Max(0.0, p.flexion))
    else
      var q := ClampPoint(n, b, flexionMax, t);
      Pair(SideOf(p) * q.y * DEG2RAD, q.x * DEG2RAD)
  }

  // A pair the finger can reach
  predicate Reachable(n: Numerics, b: Boundary, flexionMax: real, p: Pair)
    requires Ascending(b)
  {
    && p.flexion >= 0.0
    && (Inside(n, b, Measured(p)) || (p.abduction == 0.0 && Last(b).flexionHi <= Measured(p).x <= flexionMax))
  }

  ghost predicate Exact(n: Numerics, b: Boundary, flexionMax: real) {
    GoodNumerics(n) && n.tolerance == EXACT && WellFormed(b, flexionMax)
  }

  // Degrees and back
  lemma ConversionIsLossless(a: real)
    ensures a * DEG2RAD / DEG2RAD == a && a / DEG2RAD * DEG2RAD == a
    ensures (a >= 0.0 <==> a / DEG2RAD >= 0.0) && (a <= 0.0 <==> a / DEG2RAD <= 0.0)
    ensures (-a) / DEG2RAD == -(a / DEG2RAD)
  {}

  lemma ProjectedPair(n: Numerics, b: Boundary, flexionMax: real, p: Pair)
    requires Exact(n, b, flexionMax) && !Inside(n, b, Measured(p))
    ensures Measured(ClampPair(n, b, flexionMax, p)) == ClampPoint(n, b, flexionMax, Measured(p))
    ensures OnBoundary(b, flexionMax, ClampPoint(n, b, flexionMax, Measured(p)))
  {
    hide Inside, Nearest, GoodNumerics, OnBoundary;
    assert GoodNumerics(n);
    var t := Measured(p);
    var q := Nearest(n, b, flexionMax, t, |b|);
    NearestOnBoundary(n, b, flexionMax, t);
    BoundaryAboveFloor(b, flexionMax, q);
    BoundaryIsRight(b, flexionMax, q);
    ConversionIsLossless(q.x);
    ConversionIsLossless(q.y);
  }

  lemma ClampedPairIsReachable(n: Numerics, b: Boundary, flexionMax: real, p: Pair)
    requires Exact(n, b, flexionMax)
    ensures Reachable(n, b, flexionMax, ClampPair(n, b, flexionMax, p))
  {
    hide ClampPoint, OnPiece, AboveFloor, GoodPiece;
    var t, c := Measured(p), ClampPair(n, b, flexionMax, p);
    ConversionIsLossless(p.flexion);
    ConversionIsLossless(0.0);
    if !Inside(n, b, t) {
      var q := ClampPoint(n, b, flexionMax, t);
      ProjectedPair(n, b, flexionMax, p);
      BoundaryIsRight(b, flexionMax, q);
      if i :| 0 <= i < |b| && OnPiece(b[i], q) {
        PieceIsInside(n, b, flexionMax, q, i);
      }
    }
  }

  // A target is left alone exactly when the finger can reach it
  lemma FixedIffReachable(n: Numerics, b: Boundary, flexionMax: real, p: Pair)
    requires Exact(n, b, flexionMax)
    ensures ClampPair(n, b, flexionMax, p) == p <==> Reachable(n, b, flexionMax, p)
  {
    hide ClampPoint, OnPiece, AboveFloor, GoodPiece, Inside;
    ClampedPairIsReachable(n, b, flexionMax, p);
    if Reachable(n, b, flexionMax, p) && !Inside(n, b, Measured(p)) {
      ConversionIsLossless(p.abduction);
      ConversionIsLossless(p.flexion);
      ConversionIsLossless(0.0);
      BoundaryIsFixed(n, b, flexionMax, Measured(p));
    }
  }

  lemma ClampPairTwice(n: Numerics, b: Boundary, flexionMax: real, p: Pair)
    requires Exact(n, b, flexionMax)
    ensures ClampPair(n, b, flexionMax, ClampPair(n, b, flexionMax, p)) == ClampPair(n, b, flexionMax, p)
  {
    hide ClampPair, Reachable, GoodPiece, AboveFloor, IsRoot;
    ClampedPairIsReachable(n, b, flexionMax, p);
    FixedIffReachable(n, b, flexionMax, ClampPair(n, b, flexionMax, p));
  }

  // Left and right are treated alike
  lemma ClampPairMirrors(n: Numerics, b: Boundary, flexionMax: real, p: Pair)
    requires Exact(n, b, flexionMax)
    ensures ClampPair(n, b, flexionMax, Mirror(p)) == Mirror(ClampPair(n, b, flexionMax, p))
  {
    hide ClampPoint, Inside, WellFormed;
    assert Ascending(b) by { OrderOf(b, flexionMax); }
    ConversionIsLossless(p.abduction);
    assert Measured(Mirror(p)) == Measured(p);
    var q := ClampPoint(n, b, flexionMax, Measured(p));
    if p.abduction == 0.0 {
      NoAbductionStaysNone(n, b, flexionMax, Measured(p));
    } else {
      assert SideOf(Mirror(p)) == -SideOf(p);
      Opposite(SideOf(p), q.y);
    }
  }

  // In degrees, on its own side
  function Degrees(p: Pair): Point { Point(p.flexion / DEG2RAD, p.abduction / DEG2RAD) }

  function Unbent(p: Pair): Pair { p.(flexion := Max(0.0, p.flexion)) }

  // A pair that is moved goes where no pair of the boundary, on either side, is nearer
  lemma PairGoesToNearest(n: Numerics, b: Boundary, flexionMax: real, p: Pair, q: Pair)
    requires Exact(n, b, flexionMax) && !Inside(n, b, Measured(p)) && q.flexion >= 0.0 && OnBoundary(b, flexionMax, Measured(q))
    ensures Dist2(Degrees(Unbent(p)), Degrees(ClampPair(n, b, flexionMax, p))) <= Dist2(Degrees(Unbent(p)), Degrees(q))
  {
    assert GoodNumerics(n) && GoodBoundary(b, flexionMax) && Ascending(b);
    hide *;
    OutsideGoesToNearest(n, b, flexionMax, Measured(p), Measured(q)) by { MeasuredIsAbove(p); }
    MovedGap(n, b, flexionMax, p);
    OtherGap(p, q);
  }

  lemma MeasuredIsAbove(p: Pair)
    ensures Measured(p).y >= 0.0
  {}

  lemma MovedGap(n: Numerics, b: Boundary, flexionMax: real, p: Pair)
    requires Ascending(b) && !Inside(n, b, Measured(p))
    ensures Dist2(Degrees(Unbent(p)), Degrees(ClampPair(n, b, flexionMax, p))) == Dist2(Measured(p), ClampPoint(n, b, flexionMax, Measured(p)))
  {
    hide Inside, ClampPoint, Square;
    var goal := ClampPoint(n, b, flexionMax, Measured(p));
    ConversionIsLossless(p.flexion);
    ConversionIsLossless(0.0);
    ConversionIsLossless(goal.x);
    SignedConversion(SideOf(p), goal.y);
    SameSideGap(Degrees(Unbent(p)).y, goal.y, SideOf(p));
  }

  lemma OtherGap(p: Pair, q: Pair)
    requires q.flexion >= 0.0
    ensures Dist2(Measured(p), Measured(q)) <= Dist2(Degrees(Unbent(p)), Degrees(q))
  {
    hide Square;
    ConversionIsLossless(p.flexion);
    ConversionIsLossless(0.0);
    ConversionIsLossless(q.flexion);
    OtherSideIsFurther(Degrees(Unbent(p)).y, Degrees(q).y);
  }

  lemma SignedConversion(side: real, y: real)
    ensures side * y * DEG2RAD / DEG2RAD == side * y
  {}

  lemma SameSideGap(a: real, y: real, side: real)
    requires side == if a < 0.0 then -1.0 else 1.0
    ensures Square(a - side * y) == Square(Abs(a) - y)
  {}

  lemma OtherSideIsFurther(a: real, c: real)
    ensures Square(Abs(a) - Abs(c)) <= Square(a - c)
  {
    if a * c < 0.0 {
      ExpandSquare(Abs(a), Abs(c));
      ExpandSquare(a, c);
      SquareOfAbs(a);
      SquareOfAbs(c);
    }
  }

  lemma OrderOf(b: Boundary, flexionMax: real)
    requires WellFormed(b, flexionMax)
    ensures Ascending(b)
  {}

  lemma Opposite(s: real, y: real)
    ensures (-s) * y * DEG2RAD == -(s * y * DEG2RAD)
  {}

  // ------------------------------- All sixteen --------------------------------

  predicate IsAbduction(i: nat) { i == 2 || i == 4 || i == 7 || i == 10 || i == 13 }
  predicate IsFlexion(i: nat) { i == 1 || i == 5 || i == 8 || i == 11 || i == 14 }
  predicate IsDistal(i: nat) { i == 6 || i == 9 || i == 12 || i == 15 }

  function ThumbPair(n: Numerics, h: Limits, t: Targets): Pair
    requires HasOrder(h)
  {
    ClampPair(n, h.thumb, h.thumbFlexionMax, Pair(t[2], t[1]))
  }

  // The pair of the long finger whose abduction sits in slot a
  function LongPair(n: Numerics, h: Limits, t: Targets, a: nat): Pair
    requires HasOrder(h) && a + 1 < ACTUATOR_COUNT
  {
    ClampPair(n, h.long, h.longFlexionMax, Pair(t[a], t[a + 1]))
  }

  // The distal joint against its constant range and then against its floor
  function Distal(h: Limits, v: real, p: Pair): real {
    Max(Clamp(v, 0.0, h.longDistalMax * DEG2RAD), h.distalFloor(p.flexion, p.abduction))
  }

  function ClampSlot(n: Numerics, h: Limits, t: Targets, i: nat): real
    requires HasOrder(h) && i < ACTUATOR_COUNT
  {
    if i == 0 then Clamp(t[0], 0.0, h.thumbJ0Max * DEG2RAD)
    else if i == 1 then ThumbPair(n, h, t).flexion
    else if i == 2 then ThumbPair(n, h, t).abduction
    else if i == 3 then Clamp(t[3], 0.0, h.thumbJ3Max * DEG2RAD)
    else if IsAbduction(i) then LongPair(n, h, t, i).abduction
    else if IsFlexion(i) then LongPair(n, h, t, i - 1).flexion
    else Distal(h, t[i], LongPair(n, h, t, i - 2))
  }

  function ClampAll(n: Numerics, h: Limits, t: Targets): (r: Targets)
    requires HasOrder(h)
    ensures forall i :: 0 <= i < ACTUATOR_COUNT ==> r[i] == ClampSlot(n, h, t, i)
  {
    seq(ACTUATOR_COUNT, i requires 0 <= i < ACTUATOR_COUNT => ClampSlot(n, h, t, i))
  }

  ghost predicate ExactHand(n: Numerics, h: Limits) {
    GoodNumerics(n) && n.tolerance == EXACT && GoodLimits(h) && HasOrder(h)
  }

  // The sign of any choice of abductions turned over
  function Flipped(t: Targets, chosen: set<nat>): (r: Targets)
    ensures forall i :: 0 <= i < ACTUATOR_COUNT ==> r[i] == if IsAbduction(i) && i in chosen then -t[i] else t[i]
  {
    seq(ACTUATOR_COUNT, i requires 0 <= i < ACTUATOR_COUNT => if IsAbduction(i) && i in chosen then -t[i] else t[i])
  }

  lemma PairOfClamped(n: Numerics, h: Limits, t: Targets, a: nat)
    requires ExactHand(n, h) && (a == 4 || a == 7 || a == 10 || a == 13)
    ensures var c := ClampAll(n, h, t);
            Pair(c[a], c[a + 1]) == LongPair(n, h, t, a) == LongPair(n, h, c, a)
  {
    hide ClampPair, WellFormed, Distal;
    var c := ClampAll(n, h, t);
    assert c[a] == ClampSlot(n, h, t, a) && c[a + 1] == ClampSlot(n, h, t, a + 1);
    ClampPairTwice(n, h.long, h.longFlexionMax, Pair(t[a], t[a + 1]));
  }

  lemma ThumbOfClamped(n: Numerics, h: Limits, t: Targets)
    requires ExactHand(n, h)
    ensures var c := ClampAll(n, h, t);
            Pair(c[2], c[1]) == ThumbPair(n, h, t) == ThumbPair(n, h, c)
  {
    hide ClampPair, WellFormed, Distal;
    var c := ClampAll(n, h, t);
    assert c[2] == ClampSlot(n, h, t, 2) && c[1] == ClampSlot(n, h, t, 1);
    ClampPairTwice(n, h.thumb, h.thumbFlexionMax, Pair(t[2], t[1]));
  }

  // A second clamp changes nothing
  lemma ClampAllTwice(n: Numerics, h: Limits, t: Targets)
    requires ExactHand(n, h)
    ensures ClampAll(n, h, ClampAll(n, h, t)) == ClampAll(n, h, t)
  {
    hide ClampPair, WellFormed, ThumbPair, LongPair;
    var c := ClampAll(n, h, t);
    ThumbOfClamped(n, h, t);
    PairOfClamped(n, h, t, 4);
    PairOfClamped(n, h, t, 7);
    PairOfClamped(n, h, t, 10);
    PairOfClamped(n, h, t, 13);
    forall i | 0 <= i < ACTUATOR_COUNT
      ensures ClampAll(n, h, c)[i] == c[i]
    {
      assert c[i] == ClampSlot(n, h, t, i) && ClampAll(n, h, c)[i] == ClampSlot(n, h, c, i);
    }
  }

  lemma LongPairFlips(n: Numerics, h: Limits, t: Targets, chosen: set<nat>, a: nat)
    requires ExactHand(n, h) && (a == 4 || a == 7 || a == 10 || a == 13)
    ensures var p := LongPair(n, h, t, a);
            LongPair(n, h, Flipped(t, chosen), a) == if a in chosen then Mirror(p) else p
  {
    hide ClampPair, WellFormed;
    var f := Flipped(t, chosen);
    assert f[a + 1] == t[a + 1] && f[a] == if a in chosen then -t[a] else t[a];
    ClampPairMirrors(n, h.long, h.longFlexionMax, Pair(t[a], t[a + 1]));
  }

  lemma ThumbPairFlips(n: Numerics, h: Limits, t: Targets, chosen: set<nat>)
    requires ExactHand(n, h)
    ensures var p := ThumbPair(n, h, t);
            ThumbPair(n, h, Flipped(t, chosen)) == if 2 in chosen then Mirror(p) else p
  {
    hide ClampPair, WellFormed;
    var f := Flipped(t, chosen);
    assert f[1] == t[1] && f[2] == if 2 in chosen then -t[2] else t[2];
    ClampPairMirrors(n, h.thumb, h.thumbFlexionMax, Pair(t[2], t[1]));
  }

  lemma DistalIgnoresSide(h: Limits, v: real, p: Pair)
    requires GoodLimits(h)
    ensures Distal(h, v, Mirror(p)) == Distal(h, v, p)
  {}

  // Flipping abductions before the clamp or after it is the same
  lemma ClampAllMirrors(n: Numerics, h: Limits, t: Targets, chosen: set<nat>)
    requires ExactHand(n, h)
    ensures ClampAll(n, h, Flipped(t, chosen)) == Flipped(ClampAll(n, h, t), chosen)
  {
    hide ClampPair, GoodLimits, ThumbPair, LongPair, Distal;
    var f, c := Flipped(t, chosen), ClampAll(n, h, t);
    ThumbPairFlips(n, h, t, chosen);
    forall i | 0 <= i < ACTUATOR_COUNT
      ensures ClampAll(n, h, f)[i] == Flipped(c, chosen)[i]
    {
      assert ClampAll(n, h, f)[i] == ClampSlot(n, h, f, i) && c[i] == ClampSlot(n, h, t, i);
      if i > 3 {
        var a := if IsAbduction(i) then i else if IsFlexion(i) then i - 1 else i - 2;
        LongPairFlips(n, h, t, chosen, a);
        DistalIgnoresSide(h, t[i], LongPair(n, h, t, a));
      }
    }
  }

  // Where the joints may end up: every coupled pair within reach, nothing but an abduction below 0,
  // no distal joint below its floor, and none beyond its range unless the floor puts it there
  ghost predicate ThumbWithinLimits(n: Numerics, h: Limits, c: Targets)
    requires HasOrder(h)
  {
    && Reachable(n, h.thumb, h.thumbFlexionMax, Pair(c[2], c[1]))
    && 0.0 <= c[0] <= h.thumbJ0Max * DEG2RAD && 0.0 <= c[3] <= h.thumbJ3Max * DEG2RAD
  }

  ghost predicate LongWithinLimits(n: Numerics, h: Limits, c: Targets, distal: nat)
    requires HasOrder(h) && 2 <= distal < ACTUATOR_COUNT
  {
    var floor := h.distalFloor(c[distal - 1], c[distal - 2]);
    && Reachable(n, h.long, h.longFlexionMax, Pair(c[distal - 2], c[distal - 1]))
    && c[distal] >= floor >= 0.0
    && (c[distal] <= h.longDistalMax * DEG2RAD || c[distal] == floor)
  }

  lemma ThumbEndsWithinLimits(n: Numerics, h: Limits, t: Targets)
    requires ExactHand(n, h)
    ensures ThumbWithinLimits(n, h, ClampAll(n, h, t))
  {
    hide ClampPair, Reachable, WellFormed;
    var c := ClampAll(n, h, t);
    assert c[0] == ClampSlot(n, h, t, 0) && c[3] == ClampSlot(n, h, t, 3);
    ThumbOfClamped(n, h, t);
    ClampedPairIsReachable(n, h.thumb, h.thumbFlexionMax, Pair(t[2], t[1]));
  }

  lemma LongEndsWithinLimits(n: Numerics, h: Limits, t: Targets, distal: nat)
    requires ExactHand(n, h) && IsDistal(distal)
    ensures LongWithinLimits(n, h, ClampAll(n, h, t), distal)
  {
    hide ClampPair, Reachable, WellFormed;
    var c := ClampAll(n, h, t);
    assert c[distal] == ClampSlot(n, h, t, distal);
    PairOfClamped(n, h, t, distal - 2);
    ClampedPairIsReachable(n, h.long, h.longFlexionMax, Pair(t[distal - 2], t[distal - 1]));
  }

  // --------------------------- Nothing moves without need --------------------------

  predicate IsUncoupled(i: nat) { i == 0 || i == 3 || IsDistal(i) }

  // Where an uncoupled joint may be beside the pairs as they have been clamped: its constant range,
  // raised to the floor of its finger, and the floor alone where that is beyond the range
  ghost predicate Allowed(h: Limits, c: Targets, i: nat, w: real)
    requires IsUncoupled(i)
  {
    if i == 0 then 0.0 <= w <= h.thumbJ0Max * DEG2RAD
    else if i == 3 then 0.0 <= w <= h.thumbJ3Max * DEG2RAD
    else
      var floor, top := h.distalFloor(c[i - 1], c[i - 2]), h.longDistalMax * DEG2RAD;
      w == floor || floor <= w <= top
  }

  ghost predicate GoodRanges(h: Limits) {
    h.thumbJ0Max >= 0.0 && h.thumbJ3Max >= 0.0 && h.longDistalMax >= 0.0 && forall x, y :: h.distalFloor(x, y) >= 0.0
  }

  // On any tables at all, each of these joints goes to the nearest place that it may be in
  lemma UncoupledGoesToNearest(n: Numerics, h: Limits, t: Targets, i: nat)
    requires HasOrder(h) && GoodRanges(h) && i < ACTUATOR_COUNT && IsUncoupled(i)
    ensures var c := ClampAll(n, h, t);
            Allowed(h, c, i, c[i]) && forall w :: Allowed(h, c, i, w) ==> Abs(c[i] - t[i]) <= Abs(w - t[i])
  {
    hide ClampPair;
    var c := ClampAll(n, h, t);
    assert c[i] == ClampSlot(n, h, t, i);
    if IsDistal(i) {
      assert c[i - 1] == ClampSlot(n, h, t, i - 1) && c[i - 2] == ClampSlot(n, h, t, i - 2);
    }
  }

  // Targets are left alone exactly where the hand can reach them all
  lemma ClampAllFixedIffWithinLimits(n: Numerics, h: Limits, t: Targets)
    requires ExactHand(n, h)
    ensures ClampAll(n, h, t) == t <==>
              ThumbWithinLimits(n, h, t) && forall i :: 0 <= i < ACTUATOR_COUNT && IsDistal(i) ==> LongWithinLimits(n, h, t, i)
  {
    hide ClampPair, Reachable, WellFormed;
    var c := ClampAll(n, h, t);
    if c == t {
      ThumbEndsWithinLimits(n, h, t);
      forall i | 0 <= i < ACTUATOR_COUNT && IsDistal(i)
        ensures LongWithinLimits(n, h, t, i)
      {
        LongEndsWithinLimits(n, h, t, i);
      }
    }
    if ThumbWithinLimits(n, h, t) && forall i :: 0 <= i < ACTUATOR_COUNT && IsDistal(i) ==> LongWithinLimits(n, h, t, i) {
      FixedIffReachable(n, h.thumb, h.thumbFlexionMax, Pair(t[2], t[1]));
      forall i | 0 <= i < ACTUATOR_COUNT
        ensures c[i] == t[i]
      {
        assert c[i] == ClampSlot(n, h, t, i);
        if i > 3 {
          LongIsFixed(n, h, t, if IsAbduction(i) then i + 2 else if IsFlexion(i) then i + 1 else i);
        }
      }
    }
  }

  lemma LongIsFixed(n: Numerics, h: Limits, t: Targets, distal: nat)
    requires ExactHand(n, h) && distal < ACTUATOR_COUNT && IsDistal(distal) && LongWithinLimits(n, h, t, distal)
    ensures forall i :: distal - 2 <= i <= distal ==> ClampSlot(n, h, t, i) == t[i]
  {
    hide ClampPair, Reachable, WellFormed;
    FixedIffReachable(n, h.long, h.longFlexionMax, Pair(t[distal - 2], t[distal - 1]));
  }

  // ---------------------------------- In place ---------------------------------

  // The loop of the inside test
  method TestInside(n: Numerics, b: Boundary, flexion: real, abduction: real) returns (inside: bool)
    requires Ascending(b)
    ensures inside == Inside(n, b, Point(flexion, abduction))
  {
    hide Limit;
    for k := 0 to |b|
      invariant PieceAt(n, b, flexion, 0) == PieceAt(n, b, flexion, k)
    {
      var piece := b[k];
      if flexion > piece.flexionHi + n.tolerance {
        continue;
      }
      return abduction <= Limit(n, piece, flexion) + n.tolerance;
    }
    return false;
  }

  // The loop of the projection
  method Project(n: Numerics, b: Boundary, flexionMax: real, flexion: real, abduction: real)
    returns (nearestFlexion: real, nearestAbduction: real)
    requires Ascending(b)
    ensures Point(nearestFlexion, nearestAbduction) == Nearest(n, b, flexionMax, Point(flexion, abduction), |b|)
  {
    hide Candidate, Dist2;
    var t := Point(flexion, abduction);
    var nearest := Point(Clamp(flexion, Last(b).flexionHi, flexionMax), 0.0);
    var nearestDistance := Dist2(t, nearest);
    for k := 0 to |b|
      invariant nearest == Nearest(n, b, flexionMax, t, k) && nearestDistance == Dist2(t, nearest)
    {
      var candidate := Candidate(n, b[k], t);
      var distance := Dist2(t, candidate);
      if distance < nearestDistance {
        nearestDistance := distance;
        nearest := candidate;
      }
    }
    return nearest.x, nearest.y;
  }

  method ClampFingerWorkspace(n: Numerics, target: array<real>, abductionSlot: nat, flexionSlot: nat,
                              b: Boundary, flexionMax: real)
    requires Ascending(b) && target.Length == ACTUATOR_COUNT
    requires abductionSlot < ACTUATOR_COUNT && flexionSlot < ACTUATOR_COUNT && abductionSlot != flexionSlot
    modifies target
    ensures Pair(target[abductionSlot], target[flexionSlot])
         == ClampPair(n, b, flexionMax, Pair(old(target[abductionSlot]), old(target[flexionSlot])))
    ensures forall i :: 0 <= i < ACTUATOR_COUNT && i != abductionSlot && i != flexionSlot ==> target[i] == old(target[i])
  {
    hide Inside, Nearest;
    var flexion := Max(0.0, target[flexionSlot] / DEG2RAD);
    var commanded := target[abductionSlot] / DEG2RAD;
    var abduction := Abs(commanded);
    var sign := if commanded < 0.0 then -1.0 else 1.0;
    var inside := TestInside(n, b, flexion, abduction);
    if inside {
      if target[flexionSlot] < 0.0 {
        target[flexionSlot] := 0.0;
      }
      return;
    }
    var nearestFlexion, nearestAbduction := Project(n, b, flexionMax, flexion, abduction);
    if nearestAbduction < 0.0 {
      nearestAbduction := 0.0;
    }
    target[flexionSlot] := nearestFlexion * DEG2RAD;
    target[abductionSlot] := sign * nearestAbduction * DEG2RAD;
  }

  // The five coupled pairs
  method ClampPairs(n: Numerics, h: Limits, target: array<real>)
    requires HasOrder(h) && target.Length == ACTUATOR_COUNT
    modifies target
    ensures forall i :: 0 <= i < ACTUATOR_COUNT ==>
      target[i] == if IsAbduction(i) || IsFlexion(i) then ClampSlot(n, h, old(target[..]), i) else old(target[i])
  {
    hide ClampPair;
    ClampFingerWorkspace(n, target, 2, 1, h.thumb, h.thumbFlexionMax);
    ClampFingerWorkspace(n, target, 4, 5, h.long, h.longFlexionMax);
    ClampFingerWorkspace(n, target, 7, 8, h.long, h.longFlexionMax);
    ClampFingerWorkspace(n, target, 10, 11, h.long, h.longFlexionMax);
    ClampFingerWorkspace(n, target, 13, 14, h.long, h.longFlexionMax);
  }

  // One finger of the distal floor loop, which reads the pair clamped before
  method RaiseToFloor(h: Limits, target: array<real>, abductionSlot: nat, flexionSlot: nat, distalSlot: nat)
    requires target.Length == ACTUATOR_COUNT
    requires abductionSlot < ACTUATOR_COUNT && flexionSlot < ACTUATOR_COUNT && distalSlot < ACTUATOR_COUNT
    modifies target
    ensures var floor := h.distalFloor(old(target[flexionSlot]), old(target[abductionSlot]));
            target[distalSlot] == Max(old(target[distalSlot]), floor)
    ensures forall i :: 0 <= i < ACTUATOR_COUNT && i != distalSlot ==> target[i] == old(target[i])
  {
    var floor := h.distalFloor(target[flexionSlot], target[abductionSlot]);
    if target[distalSlot] < floor {
      target[distalSlot] := floor;
    }
  }

  // What remains of the thumb: the joints that no workspace table couples
  method ClampRanges(h: Limits, target: array<real>)
    requires target.Length == ACTUATOR_COUNT
    modifies target
    ensures target[0] == Clamp(old(target[0]), 0.0, h.thumbJ0Max * DEG2RAD)
    ensures target[3] == Clamp(old(target[3]), 0.0, h.thumbJ3Max * DEG2RAD)
    ensures forall i :: 0 <= i < ACTUATOR_COUNT && IsDistal(i) ==>
      target[i] == Clamp(old(target[i]), 0.0, h.longDistalMax * DEG2RAD)
    ensures forall i :: 0 <= i < ACTUATOR_COUNT && (IsAbduction(i) || IsFlexion(i)) ==> target[i] == old(target[i])
  {
    hide Clamp;
    target[0] := Clamp(target[0], 0.0, h.thumbJ0Max * DEG2RAD);
    target[3] := Clamp(target[3], 0.0, h.thumbJ3Max * DEG2RAD);
    target[6] := Clamp(target[6], 0.0, h.longDistalMax * DEG2RAD);
    target[9] := Clamp(target[9], 0.0, h.longDistalMax * DEG2RAD);
    target[12] := Clamp(target[12], 0.0, h.longDistalMax * DEG2RAD);
    target[15] := Clamp(target[15], 0.0, h.longDistalMax * DEG2RAD);
  }

  method RaiseToFloors(h: Limits, target: array<real>)
    requires target.Length == ACTUATOR_COUNT
    modifies target
    ensures forall i :: 0 <= i < ACTUATOR_COUNT ==>
      target[i] == if IsDistal(i) then Max(old(target[i]), h.distalFloor(old(target[i - 1]), old(target[i - 2]))) else old(target[i])
  {
    hide Max;
    RaiseToFloor(h, target, 4, 5, 6);
    RaiseToFloor(h, target, 7, 8, 9);
    RaiseToFloor(h, target, 10, 11, 12);
    RaiseToFloor(h, target, 13, 14, 15);
  }

  method ClampActiveJointTargets(n: Numerics, h: Limits, target: array<real>)
    requires HasOrder(h) && target.Length == ACTUATOR_COUNT
    modifies target
    ensures target[..] == ClampAll(n, h, old(target[..]))
  {
    hide ClampPair, Clamp, Max;
    ClampPairs(n, h, target);
    ClampRanges(h, target);
    RaiseToFloors(h, target);
    assert forall i :: 0 <= i < ACTUATOR_COUNT ==> target[i] == ClampSlot(n, h, old(target[..]), i);
  }
}
