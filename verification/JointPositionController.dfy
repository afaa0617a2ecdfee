/** The joint position filter of cpp/src/hand_core/controllers/joint_position_controller.cpp over
    exact reals: a send-on-delta deadband and three equal low-pass sections in cascade, per joint. */
module JointPositionController {
  import opened Types
  import opened Frames

  const JOINT_COUNT: nat := 21

  type Active = a: seq<real> | |a| == ACTUATOR_COUNT witness seq(ACTUATOR_COUNT, _ => 0.0)

  // A measured joint is None where the forward kinematics gave no finite angle
  type Joints = j: seq<Option<real>> | |j| == JOINT_COUNT witness seq(JOINT_COUNT, _ => None)
  type Measured = m: seq<Option<real>> | |m| == ACTUATOR_COUNT witness seq(ACTUATOR_COUNT, _ => None)

  datatype Config = Config(filterEnabled: bool, cutoffFreq: real, deadband: real)

  // -------------------------------- One joint --------------------------------

  datatype Sections = Sections(first: real, second: real, third: real)

  // None is the unset held value, a NaN in the source
  datatype Filter = Filter(held: Option<real>, section: Sections)

  function Abs(r: real): real { if r < 0.0 then -r else r }

  function All(v: real): Sections { Sections(v, v, v) }

  function SeedOf(target: real, measured: Option<real>): real {
    match measured
    case Some(m) => m
    case None => target
  }

  function Seeded(f: Filter, target: real, measured: Option<real>): Filter {
    if f.held.Some? then f
    else
      var seed := SeedOf(target, measured);
      Filter(Some(seed), All(seed))
  }

  // The held value a target is compared with
  function Reference(f: Filter, target: real, measured: Option<real>): real {
    if f.held.Some? then f.held.value else SeedOf(target, measured)
  }

  predicate Accepts(f: Filter, target: real, measured: Option<real>, deadband: real) {
    Abs(target - Reference(f, target, measured)) >= deadband
  }

  function Towards(from: real, to: real, alpha: real): real { from + alpha * (to - from) }

  // Each section follows the new value of the one before it
  function LowPass(s: Sections, input: real, alpha: real): Sections {
    if alpha >= 1.0 then All(input)
    else
      var first := Towards(s.first, input, alpha);
      var second := Towards(s.second, first, alpha);
      Sections(first, second, Towards(s.third, second, alpha))
  }

  function StepJoint(f: Filter, target: real, measured: Option<real>, deadband: real, alpha: real): (f': Filter)
    ensures f'.held.Some?
  {
    var held := if Accepts(f, target, measured, deadband) then target else Reference(f, target, measured);
    Filter(Some(held), LowPass(Seeded(f, target, measured).section, held, alpha))
  }

  // ----------------------------------- Runs ----------------------------------

  // What happens to one joint: the controller is left for another one, or computes a cycle
  datatype Event = Reset | Compute(target: real, measured: Option<real>, deadband: real, alpha: real)

  function Step(f: Filter, e: Event): Filter {
    match e
    case Reset => f.(held := None)
    case Compute(target, measured, deadband, alpha) => StepJoint(f, target, measured, deadband, alpha)
  }

  function Run(f: Filter, events: seq<Event>): Filter
    decreases |events|
  {
    if events == [] then f else Step(Run(f, events[..|events| - 1]), Last(events))
  }

  // The values that enter the filter in cycle k: a seed, an accepted target
  ghost predicate Enters(f: Filter, events: seq<Event>, k: nat, v: real)
    requires k < |events|
  {
    var g, e := Run(f, events[..k]), events[k];
    && e.Compute?
    && ((g.held.None? && v == SeedOf(e.target, e.measured))
        || (Accepts(g, e.target, e.measured, e.deadband) && v == e.target))
  }

  predicate Between(v: real, lo: real, hi: real) { lo <= v <= hi }

  predicate AllBetween(s: Sections, lo: real, hi: real) {
    Between(s.first, lo, hi) && Between(s.second, lo, hi) && Between(s.third, lo, hi)
  }

  predicate GoodEvent(e: Event) { e.Compute? ==> 0.0 < e.alpha <= 1.0 }

  lemma TowardsStaysBetween(from: real, to: real, alpha: real, lo: real, hi: real)
    requires 0.0 <= alpha <= 1.0 && Between(from, lo, hi) && Between(to, lo, hi)
    ensures Between(Towards(from, to, alpha), lo, hi)
  {
    assert Towards(from, to, alpha) == (1.0 - alpha) * from + alpha * to;
    Weighted(1.0 - alpha, alpha, from - lo, to - lo);
    Weighted(1.0 - alpha, alpha, hi - from, hi - to);
    assert (1.0 - alpha) * (from - lo) + alpha * (to - lo) == (1.0 - alpha) * from + alpha * to - lo;
    assert (1.0 - alpha) * (hi - from) + alpha * (hi - to) == hi - ((1.0 - alpha) * from + alpha * to);
  }

  lemma Weighted(u: real, w: real, a: real, b: real)
    requires u >= 0.0 && w >= 0.0 && a >= 0.0 && b >= 0.0
    ensures u * a + w * b >= 0.0
  {}

  lemma LowPassStaysBetween(s: Sections, input: real, alpha: real, lo: real, hi: real)
    requires 0.0 < alpha <= 1.0 && Between(input, lo, hi) && AllBetween(s, lo, hi)
    ensures AllBetween(LowPass(s, input, alpha), lo, hi)
  {
    hide Towards;
    var first := Towards(s.first, input, alpha);
    TowardsStaysBetween(s.first, input, alpha, lo, hi);
    TowardsStaysBetween(s.second, first, alpha, lo, hi);
    TowardsStaysBetween(s.third, Towards(s.second, first, alpha), alpha, lo, hi);
  }

  // For every target, deadband and cutoff sequence, with the controller left and entered again at
  // will, the output stays within the span of the seeds and the accepted targets
  lemma {:induction false} OutputStaysInHull(f: Filter, events: seq<Event>, lo: real, hi: real)
    requires f.held.None? && forall k :: 0 <= k < |events| ==> GoodEvent(events[k])
    requires forall k, v :: 0 <= k < |events| && Enters(f, events, k, v) ==> Between(v, lo, hi)
    ensures var r := Run(f, events);
            r.held.Some? ==> Between(r.held.value, lo, hi) && AllBetween(r.section, lo, hi)
    decreases |events|
  {
    hide LowPass;
    if events != [] {
      var k := |events| - 1;
      var before := events[..k];
      assert forall j :: 0 <= j < k ==> before[..j] == events[..j] && before[j] == events[j];
      assert forall j, v :: 0 <= j < k && Enters(f, before, j, v) ==> Enters(f, events, j, v);
      OutputStaysInHull(f, before, lo, hi);
      var g, e := Run(f, before), events[k];
      if e.Compute? {
        if g.held.None? {
          assert Enters(f, events, k, SeedOf(e.target, e.measured));
        }
        if Accepts(g, e.target, e.measured, e.deadband) {
          assert Enters(f, events, k, e.target);
        }
        var g' := Step(g, e);
        LowPassStaysBetween(Seeded(g, e.target, e.measured).section, g'.held.value, e.alpha, lo, hi);
      }
    }
  }

  // The held value never lags by a whole deadband, and is always a value that came in
  lemma {:induction false} HeldFollowsTarget(f: Filter, events: seq<Event>)
    requires events != [] && Last(events).Compute? && f.held.None?
    ensures var held, e := Run(f, events).held, Last(events);
            held.Some? && (held.value == e.target || Abs(e.target - held.value) < e.deadband)
    ensures exists k :: 0 <= k < |events| && Enters(f, events, k, Run(f, events).held.value)
  {
    HeldCameIn(f, events);
  }

  lemma {:induction false} HeldCameIn(f: Filter, events: seq<Event>)
    requires f.held.None? && Run(f, events).held.Some?
    ensures exists k :: 0 <= k < |events| && Enters(f, events, k, Run(f, events).held.value)
    decreases |events|
  {
    hide LowPass;
    var k := |events| - 1;
    var before, e := events[..k], events[k];
    var g := Run(f, before);
    var held := Run(f, events).held.value;
    if g.held.None? || Accepts(g, e.target, e.measured, e.deadband) {
      assert Enters(f, events, k, held);
    } else {
      HeldCameIn(f, before);
      var j :| 0 <= j < k && Enters(f, before, j, held);
      assert before[..j] == events[..j];
      assert Enters(f, events, j, held);
    }
  }

  // Targets that stay less than one deadband from the held value leave it as it is, and an output that
  // has settled does not move
  lemma {:induction false} SmallMovesAreDropped(f: Filter, events: seq<Event>)
    requires f.held.Some?
    requires forall k :: 0 <= k < |events| ==> events[k].Compute? && Abs(events[k].target - f.held.value) < events[k].deadband
    ensures Run(f, events).held == f.held
    ensures f.section == All(f.held.value) ==> Run(f, events) == f
    decreases |events|
  {
    if events != [] {
      SmallMovesAreDropped(f, events[..|events| - 1]);
    }
  }

  // ------------------------------- Step response -------------------------------

  function Pow(b: real, n: nat): real { if n == 0 then 1.0 else b * Pow(b, n - 1) }

  // The part of the step that is left after n cycles, in the second and in the third section, is
  // this times (1 - alpha)^n
  function SecondLeft(alpha: real, n: nat): real { 1.0 + n as real * alpha }
  function Triangle(n: nat): real { (n * (n + 1)) as real / 2.0 }
  function ThirdLeft(alpha: real, n: nat): real { 1.0 + n as real * alpha + alpha * alpha * Triangle(n) }

  // The same target and filter setting in every cycle; the seed is measured in the first
  predicate IsStep(events: seq<Event>, seed: real, target: real, deadband: real, alpha: real) {
    && (forall k :: 0 <= k < |events| ==>
          events[k].Compute? && events[k].target == target && events[k].deadband == deadband && events[k].alpha == alpha)
    && (|events| > 0 ==> events[0].measured == Some(seed))
  }

  ghost predicate SectionErrors(s: Sections, target: real, step: real, alpha: real, n: nat) {
    && target - s.first == step * Pow(1.0 - alpha, n)
    && target - s.second == step * (Pow(1.0 - alpha, n) * SecondLeft(alpha, n))
    && target - s.third == step * (Pow(1.0 - alpha, n) * ThirdLeft(alpha, n))
  }

  lemma TowardsError(from: real, to: real, alpha: real, target: real)
    ensures target - Towards(from, to, alpha) == (1.0 - alpha) * (target - from) + alpha * (target - to)
  {}

  lemma SecondLeftGrows(alpha: real, n: nat)
    ensures SecondLeft(alpha, n + 1) == SecondLeft(alpha, n) + alpha
  {}

  lemma TriangleGrows(n: nat)
    ensures Triangle(n + 1) == Triangle(n) + (n as real + 1.0)
  {
    assert (n + 1) * (n + 1 + 1) == n * (n + 1) + 2 * (n + 1);
  }

  lemma ThirdLeftGrows(alpha: real, n: nat)
    ensures ThirdLeft(alpha, n + 1) == ThirdLeft(alpha, n) + alpha * SecondLeft(alpha, n + 1)
  {
    hide Triangle;
    var m, t := n as real, Triangle(n);
    TriangleGrows(n);
    assert ThirdLeft(alpha, n + 1) == 1.0 + (m + 1.0) * alpha + alpha * alpha * (t + (m + 1.0));
    assert (m + 1.0) * alpha == m * alpha + alpha;
    assert SecondLeft(alpha, n + 1) == 1.0 + (m + 1.0) * alpha;
    assert alpha * (1.0 + (m + 1.0) * alpha) == alpha + alpha * alpha * (m + 1.0);
    assert alpha * alpha * (t + (m + 1.0)) == alpha * alpha * t + alpha * alpha * (m + 1.0);
  }

  // One section: what is left of its own error and what the section before it leaves
  lemma Blend(step: real, beta: real, p: real, own: real, alpha: real, before: real, p': real, next: real)
    requires p' == beta * p && next == own + alpha * before
    ensures beta * (step * (p * own)) + alpha * (step * (p' * before)) == step * (p' * next)
  {
    var x := step * (beta * p);
    assert beta * (step * (p * own)) == x * own;
    assert alpha * (step * ((beta * p) * before)) == x * (alpha * before);
    assert step * ((beta * p) * (own + alpha * before)) == x * (own + alpha * before);
  }

  lemma LaterSectionError(from: real, to: real, target: real, step: real, p: real, own: real, alpha: real,
                          before: real, p': real, next: real)
    requires target - from == step * (p * own) && target - to == step * (p' * before)
    requires p' == (1.0 - alpha) * p && next == own + alpha * before
    ensures target - Towards(from, to, alpha) == step * (p' * next)
  {
    hide Towards;
    TowardsError(from, to, alpha, target);
    Blend(step, 1.0 - alpha, p, own, alpha, before, p', next);
  }

  lemma FirstSectionError(from: real, target: real, step: real, p: real, alpha: real, p': real)
    requires target - from == step * p && p' == (1.0 - alpha) * p
    ensures target - Towards(from, target, alpha) == step * p' == step * (p' * 1.0)
  {
    hide Towards;
    TowardsError(from, target, alpha, target);
    assert (1.0 - alpha) * (step * p) == step * ((1.0 - alpha) * p);
  }

  lemma PowGrows(beta: real, n: nat)
    ensures Pow(beta, n + 1) == beta * Pow(beta, n)
  {}

  lemma FirstError(s: Sections, target: real, step: real, alpha: real, n: nat)
    requires alpha < 1.0 && SectionErrors(s, target, step, alpha, n)
    ensures target - LowPass(s, target, alpha).first == step * Pow(1.0 - alpha, n + 1) == step * (Pow(1.0 - alpha, n + 1) * 1.0)
  {
    hide Towards, SecondLeft, ThirdLeft, Pow;
    PowGrows(1.0 - alpha, n);
    FirstSectionError(s.first, target, step, Pow(1.0 - alpha, n), alpha, Pow(1.0 - alpha, n + 1));
  }

  lemma SecondError(s: Sections, target: real, step: real, alpha: real, n: nat)
    requires alpha < 1.0 && SectionErrors(s, target, step, alpha, n)
    ensures target - LowPass(s, target, alpha).second == step * (Pow(1.0 - alpha, n + 1) * SecondLeft(alpha, n + 1))
  {
    hide Towards, SecondLeft, ThirdLeft, Pow;
    PowGrows(1.0 - alpha, n);
    SecondLeftGrows(alpha, n);
    FirstError(s, target, step, alpha, n);
    LaterSectionError(s.second, Towards(s.first, target, alpha), target, step, Pow(1.0 - alpha, n), SecondLeft(alpha, n),
                      alpha, 1.0, Pow(1.0 - alpha, n + 1), SecondLeft(alpha, n + 1));
  }

  lemma ThirdError(s: Sections, target: real, step: real, alpha: real, n: nat)
    requires alpha < 1.0 && SectionErrors(s, target, step, alpha, n)
    ensures target - LowPass(s, target, alpha).third == step * (Pow(1.0 - alpha, n + 1) * ThirdLeft(alpha, n + 1))
  {
    hide Towards, SecondLeft, ThirdLeft, Pow;
    PowGrows(1.0 - alpha, n);
    ThirdLeftGrows(alpha, n);
    SecondError(s, target, step, alpha, n);
    LaterSectionError(s.third, LowPass(s, target, alpha).second, target, step, Pow(1.0 - alpha, n), ThirdLeft(alpha, n),
                      alpha, SecondLeft(alpha, n + 1), Pow(1.0 - alpha, n + 1), ThirdLeft(alpha, n + 1));
  }

  lemma LowPassErrors(s: Sections, target: real, step: real, alpha: real, n: nat)
    requires alpha < 1.0 && SectionErrors(s, target, step, alpha, n)
    ensures SectionErrors(LowPass(s, target, alpha), target, step, alpha, n + 1)
  {
    hide LowPass, SecondLeft, ThirdLeft, Pow;
    FirstError(s, target, step, alpha, n);
    SecondError(s, target, step, alpha, n);
    ThirdError(s, target, step, alpha, n);
  }

  // The exact step response: after n cycles towards an accepted target the error of the output is
  // (T - s) (1 - alpha)^n (1 + n alpha + alpha^2 n (n + 1) / 2)
  lemma {:induction false} StepResponse(f: Filter, events: seq<Event>, seed: real, target: real, deadband: real, alpha: real)
    requires f.held.None? && events != [] && IsStep(events, seed, target, deadband, alpha)
    requires 0.0 < alpha <= 1.0 && deadband >= 0.0 && Abs(target - seed) >= deadband
    ensures Run(f, events).held == Some(target)
    ensures SectionErrors(Run(f, events).section, target, target - seed, alpha, |events|)
    decreases |events|
  {
    hide SectionErrors, LowPass, Accepts, Reference;
    var n := |events| - 1;
    var before := events[..n];
    if n == 0 {
      SeedAccepts(f, events[0], seed);
      SeedErrors(target, seed, alpha);
      StepErrors(All(seed), target, target - seed, alpha, 0);
    } else {
      assert before[0] == events[0];
      StepResponse(f, before, seed, target, deadband, alpha);
      HeldAccepts(Run(f, before), events[n]);
      StepErrors(Run(f, before).section, target, target - seed, alpha, n);
    }
  }

  lemma SeedAccepts(f: Filter, e: Event, seed: real)
    requires f.held.None? && e.Compute? && e.measured == Some(seed) && Abs(e.target - seed) >= e.deadband
    ensures Step(f, e) == Filter(Some(e.target), LowPass(All(seed), e.target, e.alpha))
  {}

  lemma HeldAccepts(f: Filter, e: Event)
    requires e.Compute? && f.held == Some(e.target)
    ensures Step(f, e) == Filter(Some(e.target), LowPass(f.section, e.target, e.alpha))
  {}

  lemma SeedErrors(target: real, seed: real, alpha: real)
    ensures SectionErrors(All(seed), target, target - seed, alpha, 0)
  {}

  lemma StepErrors(s: Sections, target: real, step: real, alpha: real, n: nat)
    requires 0.0 < alpha <= 1.0 && SectionErrors(s, target, step, alpha, n)
    ensures SectionErrors(LowPass(s, target, alpha), target, step, alpha, n + 1)
  {
    if alpha < 1.0 {
      LowPassErrors(s, target, step, alpha, n);
    }
  }

  // --------------------------------- Settling ----------------------------------

  // The error of section 1, 2 and 3 as a share of the step
  function Share(alpha: real, n: nat, section: nat): real
    requires 1 <= section <= 3
  {
    Pow(1.0 - alpha, n) * (if section == 1 then 1.0 else if section == 2 then SecondLeft(alpha, n) else ThirdLeft(alpha, n))
  }

  function Blended(alpha: real, own: real, before: real): real { (1.0 - alpha) * own + alpha * before }

  lemma ShareNext(alpha: real, n: nat)
    ensures Share(alpha, n + 1, 1) == Blended(alpha, Share(alpha, n, 1), 0.0)
    ensures Share(alpha, n + 1, 2) == Blended(alpha, Share(alpha, n, 2), Share(alpha, n + 1, 1))
    ensures Share(alpha, n + 1, 3) == Blended(alpha, Share(alpha, n, 3), Share(alpha, n + 1, 2))
  {
    hide SecondLeft, ThirdLeft;
    var beta, p := 1.0 - alpha, Pow(1.0 - alpha, n);
    SecondLeftGrows(alpha, n);
    ThirdLeftGrows(alpha, n);
    var p' := Pow(1.0 - alpha, n + 1);
    Blend(1.0, beta, p, SecondLeft(alpha, n), alpha, 1.0, p', SecondLeft(alpha, n + 1));
    Blend(1.0, beta, p, ThirdLeft(alpha, n), alpha, SecondLeft(alpha, n + 1), p', ThirdLeft(alpha, n + 1));
  }

  // A mean of a and b lies between them
  lemma BlendedBetween(alpha: real, own: real, before: real)
    requires 0.0 <= alpha <= 1.0 && before <= own
    ensures before <= Blended(alpha, own, before) <= own
  {
    Weighted(1.0 - alpha, 0.0, own - before, 0.0);
    Weighted(alpha, 0.0, own - before, 0.0);
    assert Blended(alpha, own, before) == own - alpha * (own - before) == before + (1.0 - alpha) * (own - before);
  }

  // Shares are ordered by section and fall from cycle to cycle, so the output neither overshoots
  // nor turns back
  lemma {:induction false} SharesFall(alpha: real, n: nat)
    requires 0.0 < alpha <= 1.0
    ensures 0.0 <= Share(alpha, n, 1) <= Share(alpha, n, 2) <= Share(alpha, n, 3) <= 1.0
    ensures 0.0 <= Share(alpha, n + 1, 1) <= Share(alpha, n + 1, 2) <= Share(alpha, n + 1, 3)
    ensures Share(alpha, n + 1, 1) <= Share(alpha, n, 1)
    ensures Share(alpha, n + 1, 2) <= Share(alpha, n, 2)
    ensures Share(alpha, n + 1, 3) <= Share(alpha, n, 3)
  {
    hide Share, Blended;
    if n == 0 {
      Fresh(alpha);
    } else {
      SharesFall(alpha, n - 1);
    }
    ShareNext(alpha, n);
    BlendedBetween(alpha, Share(alpha, n, 1), 0.0);
    BlendedBetween(alpha, Share(alpha, n, 2), Share(alpha, n + 1, 1));
    BlendedBetween(alpha, Share(alpha, n, 3), Share(alpha, n + 1, 2));
  }

  lemma Fresh(alpha: real)
    ensures Share(alpha, 0, 1) == Share(alpha, 0, 2) == Share(alpha, 0, 3) == 1.0
  {}

  // No steady offset: what is left of a step is at most 3 / (n alpha) of it
  lemma {:induction false} ShareVanishes(alpha: real, n: nat)
    requires 0.0 < alpha <= 1.0
    ensures n as real * alpha * Share(alpha, n, 3) + Share(alpha, n, 3) + Share(alpha, n, 2) + Share(alpha, n, 1) <= 3.0
  {
    hide Share, Blended;
    if n == 0 {
      Fresh(alpha);
    } else {
      var m := n - 1;
      ShareVanishes(alpha, m);
      SharesFall(alpha, m);
      ShareNext(alpha, m);
      Potential(m as real, alpha, Share(alpha, m, 1), Share(alpha, m, 2), Share(alpha, m, 3),
                Share(alpha, n, 1), Share(alpha, n, 2), Share(alpha, n, 3));
    }
  }

  lemma Potential(m: real, alpha: real, x: real, y: real, z: real, x': real, y': real, z': real)
    requires m >= 0.0 && 0.0 < alpha && x' <= x && y' <= y && z' <= z
    requires x' == Blended(alpha, x, 0.0) && y' == Blended(alpha, y, x') && z' == Blended(alpha, z, y')
    ensures (m + 1.0) * alpha * z' + z' + y' + x' <= m * alpha * z + z + y + x
  {
    assert (m * alpha) * z' <= (m * alpha) * z;
    assert (m + 1.0) * alpha * z' == (m * alpha) * z' + alpha * z';
    assert alpha * z' + z' + y' + x' == z + y + x - alpha * (z - z') - alpha * (y - y') - alpha * (x - x');
    assert alpha * (z - z') >= 0.0 && alpha * (y - y') >= 0.0 && alpha * (x - x') >= 0.0;
  }

  lemma StepSettles(f: Filter, events: seq<Event>, seed: real, target: real, deadband: real, alpha: real)
    requires f.held.None? && events != [] && IsStep(events, seed, target, deadband, alpha)
    requires 0.0 < alpha <= 1.0 && deadband >= 0.0 && Abs(target - seed) >= deadband
    ensures |events| as real * alpha * Abs(target - Run(f, events).section.third) <= 3.0 * Abs(target - seed)
  {
    hide ThirdLeft, SecondLeft, Pow, Run, Abs, IsStep;
    var n, step, share := |events|, target - seed, Share(alpha, |events|, 3);
    StepResponse(f, events, seed, target, deadband, alpha);
    SharesFall(alpha, n);
    ShareVanishes(alpha, n);
    AbsOfShare(n as real * alpha, step, share, target - Run(f, events).section.third);
  }

  lemma AbsOfShare(k: real, step: real, share: real, error: real)
    requires share >= 0.0 && k * share <= 3.0 && error == step * share
    ensures k * Abs(error) <= 3.0 * Abs(step)
  {
    assert Abs(error) == Abs(step) * share;
    assert k * (Abs(step) * share) == Abs(step) * (k * share);
    assert Abs(step) * (3.0 - k * share) >= 0.0;
  }

  // --------------------------------- Controller --------------------------------

  // 1 - exp(-dt * 2 pi fc), an unknown function of the cutoff with values in (0, 1]
  type Response = real -> real
  ghost predicate GoodResponse(response: Response) { forall c :: c > 0.0 ==> 0.0 < response(c) <= 1.0 }

  function LowPassAlpha(response: Response, cutoffFreq: real): real {
    if cutoffFreq > 0.0 then response(cutoffFreq) else 1.0
  }

  // The 16 active joints among the 21 of the forward kinematics
  const ACTIVE_JOINTS: seq<nat> := [0, 1, 2, 3, 5, 6, 7, 9, 10, 11, 13, 14, 15, 17, 18, 19]

  function ActiveJointsOf(joints: Joints): (m: Measured)
    ensures forall i :: 0 <= i < ACTUATOR_COUNT ==> m[i] == joints[ACTIVE_JOINTS[i]]
  {
    seq(ACTUATOR_COUNT, i requires 0 <= i < ACTUATOR_COUNT => joints[ACTIVE_JOINTS[i]])
  }

  // They are all but the last joint of each finger, in order
  lemma ActiveJointsAre()
    ensures forall j :: 0 <= j < JOINT_COUNT ==> (j in ACTIVE_JOINTS <==> j !in {4, 8, 12, 16, 20})
    ensures forall i, k :: 0 <= i < k < ACTUATOR_COUNT ==> ACTIVE_JOINTS[i] < ACTIVE_JOINTS[k]
  {
    var a := ACTIVE_JOINTS;
    assert a[0] == 0 && a[1] == 1 && a[2] == 2 && a[3] == 3 && a[4] == 5 && a[5] == 6 && a[6] == 7 && a[7] == 9;
    assert a[8] == 10 && a[9] == 11 && a[10] == 13 && a[11] == 14 && a[12] == 15 && a[13] == 17 && a[14] == 18 && a[15] == 19;
  }

  type Bank = b: seq<Filter> | |b| == ACTUATOR_COUNT witness seq(ACTUATOR_COUNT, _ => Filter(None, All(0.0)))

  // A filter that is switched off lets everything through
  function DeadbandOf(config: Config): real { if config.filterEnabled then config.deadband else 0.0 }
  function AlphaOf(response: Response, config: Config): real {
    if config.filterEnabled then LowPassAlpha(response, config.cutoffFreq) else 1.0
  }

  function EventOf(response: Response, config: Config, target: Active, joints: Joints, i: nat): Event
    requires i < ACTUATOR_COUNT
  {
    Compute(target[i], ActiveJointsOf(joints)[i], DeadbandOf(config), AlphaOf(response, config))
  }

  function Computed(b: Bank, response: Response, config: Config, target: Active, joints: Joints): Bank {
    seq(ACTUATOR_COUNT, i requires 0 <= i < ACTUATOR_COUNT => Step(b[i], EventOf(response, config, target, joints, i)))
  }

  function WasReset(b: Bank): Bank {
    seq(ACTUATOR_COUNT, i requires 0 <= i < ACTUATOR_COUNT => Step(b[i], Reset))
  }

  function Output(b: Bank): Active { seq(ACTUATOR_COUNT, i requires 0 <= i < ACTUATOR_COUNT => b[i].section.third) }

  // ik_joint_to_actuator
  type Counts = c: seq<int> | |c| == ACTUATOR_COUNT witness Zeros()
  type InverseKinematics = Active -> Counts

  // With the filter off, or with no cutoff and no deadband, the target passes straight through
  lemma OffPassesThrough(b: Bank, response: Response, config: Config, target: Active, joints: Joints)
    requires !config.filterEnabled || (config.cutoffFreq <= 0.0 && config.deadband == 0.0)
    ensures Output(Computed(b, response, config, target, joints)) == target
  {}

  // ----------------------------- Runs of the controller -------------------------

  // Every configuration gives a coefficient that the filter can use
  lemma ConfiguredIsGood(response: Response, config: Config, target: Active, joints: Joints, i: nat)
    requires GoodResponse(response) && i < ACTUATOR_COUNT
    ensures GoodEvent(EventOf(response, config, target, joints, i))
  {}

  // What a cycle asks of the controller: nothing, so that it is reset, or the filtered targets
  datatype Use = Leave | Follow(config: Config, target: Active, joints: Joints)

  function EventsOf(response: Response, uses: seq<Use>, i: nat): (events: seq<Event>)
    requires i < ACTUATOR_COUNT
    ensures |events| == |uses|
  {
    seq(|uses|, k requires 0 <= k < |uses| =>
      match uses[k]
      case Leave => Reset
      case Follow(config, target, joints) => EventOf(response, config, target, joints, i))
  }

  function Used(b: Bank, response: Response, use: Use): Bank {
    match use
    case Leave => WasReset(b)
    case Follow(config, target, joints) => Computed(b, response, config, target, joints)
  }

  function After(b: Bank, response: Response, uses: seq<Use>): Bank
    decreases |uses|
  {
    if uses == [] then b else Used(After(b, response, uses[..|uses| - 1]), response, Last(uses))
  }

  // The joints are filtered independently of each other
  lemma {:induction false} AfterIsRun(b: Bank, response: Response, uses: seq<Use>, i: nat)
    requires i < ACTUATOR_COUNT
    ensures After(b, response, uses)[i] == Run(b[i], EventsOf(response, uses, i))
    decreases |uses|
  {
    if uses != [] {
      hide Step, EventOf;
      var before := uses[..|uses| - 1];
      AfterIsRun(b, response, before, i);
      var events := EventsOf(response, uses, i);
      assert events[..|events| - 1] == EventsOf(response, before, i);
    }
  }

  // For every response of a first-order low-pass, whatever the targets, the configurations and the
  // changes of controller: each joint that is sent stays within the span of what has entered its filter
  lemma JointsStayInHull(b: Bank, response: Response, uses: seq<Use>, i: nat, lo: real, hi: real)
    requires GoodResponse(response) && i < ACTUATOR_COUNT && b[i].held.None?
    requires uses != [] && Last(uses).Follow?
    requires forall k, v :: 0 <= k < |uses| && Enters(b[i], EventsOf(response, uses, i), k, v) ==> Between(v, lo, hi)
    ensures Between(Output(After(b, response, uses))[i], lo, hi)
  {
    hide Step, EventOf, Enters, GoodEvent, GoodResponse;
    var events := EventsOf(response, uses, i);
    forall k | 0 <= k < |events|
      ensures GoodEvent(events[k])
    {
      if uses[k].Follow? {
        ConfiguredIsGood(response, uses[k].config, uses[k].target, uses[k].joints, i);
      } else {
        ResetIsGood();
      }
    }
    AfterIsRun(b, response, uses, i);
    OutputStaysInHull(b[i], events, lo, hi);
    FollowingHolds(b[i], events, response, Last(uses), i);
  }

  lemma ResetIsGood()
    ensures GoodEvent(Reset)
  {}

  lemma FollowingHolds(f: Filter, events: seq<Event>, response: Response, use: Use, i: nat)
    requires i < ACTUATOR_COUNT && events != [] && use.Follow?
    requires Last(events) == EventOf(response, use.config, use.target, use.joints, i)
    ensures Run(f, events).held.Some?
  {
    hide LowPass;
  }

  // With the filter on, the configured deadband and cutoff are the ones that act: a settled joint stays
  // where it is for targets within the deadband
  lemma SettledJointStays(b: Bank, response: Response, uses: seq<Use>, i: nat)
    requires i < ACTUATOR_COUNT && b[i].held.Some? && b[i].section == All(b[i].held.value)
    requires forall k :: 0 <= k < |uses| ==> uses[k].Follow? && uses[k].config.filterEnabled
    requires forall k :: 0 <= k < |uses| ==> Abs(uses[k].target[i] - b[i].held.value) < uses[k].config.deadband
    ensures Output(After(b, response, uses))[i] == b[i].held.value
  {
    hide After, Run, Abs;
    AfterIsRun(b, response, uses, i);
    SmallMovesAreDropped(b[i], EventsOf(response, uses, i));
  }

  // Where the forward kinematics has no angle for a joint, entering the controller sends its target at once
  lemma UnmeasuredGoesToTarget(b: Bank, response: Response, config: Config, target: Active, joints: Joints, i: nat)
    requires GoodResponse(response) && i < ACTUATOR_COUNT && b[i].held.None? && joints[ACTIVE_JOINTS[i]].None?
    ensures Output(Computed(b, response, config, target, joints))[i] == target[i]
  {}

  // And a new target beyond the deadband is approached with the coefficient of the cutoff, from the pose
  // measured as the controller is entered
  lemma ConfiguredStep(b: Bank, response: Response, config: Config, target: Active, uses: seq<Use>, i: nat, seed: real)
    requires GoodResponse(response) && i < ACTUATOR_COUNT && b[i].held.None? && uses != []
    requires config.filterEnabled && config.cutoffFreq > 0.0 && 0.0 <= config.deadband <= Abs(target[i] - seed)
    requires forall k :: 0 <= k < |uses| ==> uses[k].Follow? && uses[k].config == config && uses[k].target == target
    requires uses[0].joints[ACTIVE_JOINTS[i]] == Some(seed)
    ensures var a, n := response(config.cutoffFreq), |uses|;
            target[i] - Output(After(b, response, uses))[i] == (target[i] - seed) * (Pow(1.0 - a, n) * ThirdLeft(a, n))
  {
    hide After, Run, Abs, Pow, ThirdLeft;
    var events := EventsOf(response, uses, i);
    AfterIsRun(b, response, uses, i);
    StepResponse(b[i], events, seed, target[i], config.deadband, response(config.cutoffFreq));
  }

  // -------------------------------------- Class ---------------------------------

  class JointPositionController {
    const response: Response
    // The cutoff that alpha was derived from
    var cutoffFreq: real
    var alpha: real
    const held: array<Option<real>>
    const section: array<Sections>

    ghost predicate Valid()
      reads this
    {
      held.Length == section.Length == ACTUATOR_COUNT && alpha == LowPassAlpha(response, cutoffFreq)
    }

    ghost function State(): Bank
      requires held.Length == section.Length == ACTUATOR_COUNT
      reads held, section
    {
      seq(ACTUATOR_COUNT, i requires 0 <= i < ACTUATOR_COUNT reads held, section
                            requires held.Length == section.Length == ACTUATOR_COUNT => Filter(held[i], section[i]))
    }

    constructor (response: Response)
      ensures Valid() && fresh(held) && fresh(section)
      ensures this.response == response && forall i :: 0 <= i < ACTUATOR_COUNT ==> State()[i].held == None
    {
      this.response := response;
      cutoffFreq, alpha := -1.0, 1.0;
      held := new Option<real>[ACTUATOR_COUNT](_ => None);
      section := new Sections[ACTUATOR_COUNT](_ => All(0.0));
    }

    // Leaves the filter unseeded and every joint without a held value
    method ResetFilter()
      requires Valid()
      modifies held
      ensures Valid() && State() == WasReset(old(State()))
    {
      for i := 0 to ACTUATOR_COUNT
        invariant forall j :: 0 <= j < i ==> held[j] == None
      {
        held[i] := None;
      }
    }

    method FilterJoint(i: nat, target: real, measured: Option<real>, deadband: real, alpha: real) returns (filtered: real)
      requires held.Length == section.Length == ACTUATOR_COUNT && i < ACTUATOR_COUNT
      modifies held, section
      ensures Filter(held[i], section[i]) == StepJoint(old(Filter(held[i], section[i])), target, measured, deadband, alpha)
      ensures filtered == section[i].third
      ensures forall j :: 0 <= j < ACTUATOR_COUNT && j != i ==> held[j] == old(held[j]) && section[j] == old(section[j])
    {
      hide Towards;
      if held[i].None? {
        var seed := if measured.Some? then measured.value else target;
        held[i] := Some(seed);
        section[i] := All(seed);
      }
      if Abs(target - held[i].value) >= deadband {
        held[i] := Some(target);
      }
      if alpha >= 1.0 {
        section[i] := All(held[i].value);
      } else {
        var s := section[i];
        s := s.(first := Towards(s.first, held[i].value, alpha));
        s := s.(second := Towards(s.second, s.first, alpha));
        s := s.(third := Towards(s.third, s.second, alpha));
        section[i] := s;
      }
      return section[i].third;
    }

    method ComputeFrames(ik: InverseKinematics, config: Config, target: Active, joints: Joints, frames: CommandFrames)
      returns (out: CommandFrames)
      requires Valid()
      modifies this, held, section
      ensures Valid() && State() == Computed(old(State()), response, config, target, joints)
      ensures out == frames.(mode := seq(ACTUATOR_COUNT, _ => CSP), targetPosition := ik(Output(State())))
    {
      hide StepJoint;
      if config.cutoffFreq != cutoffFreq {
        cutoffFreq := config.cutoffFreq;
        alpha := LowPassAlpha(response, cutoffFreq);
      }
      var deadband := if config.filterEnabled then config.deadband else 0.0;
      var share := if config.filterEnabled then alpha else 1.0;
      var measured := ActiveJointsOf(joints);
      var filtered: Active := seq(ACTUATOR_COUNT, _ => 0.0);
      for i := 0 to ACTUATOR_COUNT
        modifies held, section
        invariant forall j :: 0 <= j < i ==>
          Filter(held[j], section[j]) == StepJoint(old(Filter(held[j], section[j])), target[j], measured[j], deadband, share)
        invariant forall j :: 0 <= j < i ==> filtered[j] == section[j].third
        invariant forall j :: i <= j < ACTUATOR_COUNT ==> held[j] == old(held[j]) && section[j] == old(section[j])
      {
        var v := FilterJoint(i, target[i], measured[i], deadband, share);
        filtered := filtered[i := v];
      }
      assert forall i :: 0 <= i < ACTUATOR_COUNT ==>
        State()[i] == Step(old(State())[i], EventOf(response, config, target, joints, i));
      assert filtered == Output(State());
      out := frames.(mode := seq(ACTUATOR_COUNT, _ => CSP), targetPosition := ik(filtered));
    }
  }
}
