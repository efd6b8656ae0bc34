/** The actuation plant of one robot on values: from the latched command to the velocity given to
    the body (Robot::advanceActuation), and what holds of it over whole runs. */
module Actuation {
  import opened RealMath
  import opened VectorLimiter
  import opened AxisLag
  import opened DelayLine

  /** A body-frame velocity: forward [mm/s], left [mm/s], angular [rad/s]. */
  datatype Twist = Twist(x: real, y: real, w: real)

  const STILL := Twist(0.0, 0.0, 0.0)

  /** Sine and cosine of a wheel's mounting angle. */
  datatype Wheel = Wheel(sin: real, cos: real)

  datatype MotionModel = MotionModel(
    tauVx: real, tauVy: real, tauOmega: real,
    deadTime: real,
    gainVx: real, gainVy: real, gainVxFromUy: real, gainVyFromUx: real, gainOmega: real,
    omegaDeadZone: real,
    tractionAccelX: real, tractionAccelY: real, tractionDecelX: real, tractionDecelY: real,
    maxLinearAccel: real, maxLinearDecel: real,
    maxAngularVel: real, maxAngularAccel: real,
    maxLinearVel: real,
    wheelBudget: real, robotRadius: real, wheels: seq<Wheel>)

  /** The library functions the plant calls. */
  datatype Library = Library(hyp: (real, real) -> real, lag: (real, real) -> real)
  {
    ghost predicate Valid() {
      IsHypot(hyp) && IsLag(lag)
    }
  }

  datatype Plant = Plant(cmd: Twist, applied: Twist, vel: Twist,
                         bufTangent: seq<real>, bufNormal: seq<real>, bufAngular: seq<real>)

  const RESET := Plant(STILL, STILL, STILL, [], [], [])

  // --- the stages of the pipeline -------------------------------------------------------------

  function DeadZone(m: MotionModel, uw: real): real {
    if m.omegaDeadZone > 0.0 && Abs(uw) < m.omegaDeadZone then 0.0 else uw
  }

  function Gain(m: MotionModel, u: Twist): Twist {
    Twist(m.gainVx * u.x + m.gainVxFromUy * u.y, m.gainVy * u.y + m.gainVyFromUx * u.x, m.gainOmega * u.w)
  }

  function CapAngular(m: MotionModel, w: real): real {
    if m.maxAngularVel > 0.0 && Abs(w) > m.maxAngularVel then CopySign(m.maxAngularVel, w) else w
  }

  function ScaleTwist(k: real, t: Twist): Twist {
    Twist(t.x * k, t.y * k, t.w * k)
  }

  function ScaleTranslation(k: real, t: Twist): Twist {
    Twist(t.x * k, t.y * k, t.w)
  }

  function CapLinear(hyp: (real, real) -> real, m: MotionModel, t: Twist): Twist {
    var speed := hyp(t.x, t.y);
    if m.maxLinearVel > 0.0 && speed > m.maxLinearVel then ScaleTranslation(m.maxLinearVel / speed, t) else t
  }

  function WheelSpeed(m: MotionModel, wheel: Wheel, t: Twist): real {
    wheel.sin * t.x - wheel.cos * t.y - m.robotRadius * t.w
  }

  /** The fastest of the first k wheels. */
  function PeakOf(m: MotionModel, t: Twist, k: nat): real
    requires k <= |m.wheels|
  {
    if k == 0 then 0.0 else Max(PeakOf(m, t, k - 1), Abs(WheelSpeed(m, m.wheels[k - 1], t)))
  }

  function BudgetWheels(m: MotionModel, t: Twist): Twist {
    var peak := PeakOf(m, t, |m.wheels|);
    if m.wheelBudget > 0.0 && peak > m.wheelBudget then ScaleTwist(m.wheelBudget / peak, t) else t
  }

  /** The velocity a delayed command asks for, after every cap. */
  function Target(hyp: (real, real) -> real, m: MotionModel, u: Twist): Twist {
    var g := Gain(m, u.(w := DeadZone(m, u.w)));
    BudgetWheels(m, CapLinear(hyp, m, g.(w := CapAngular(m, g.w))))
  }

  predicate VectorLimited(m: MotionModel) {
    m.maxLinearAccel > 0.0 && m.maxLinearDecel > 0.0
  }

  /** Where the lag alone would take the translation in this tick. */
  function Destination(lag: (real, real) -> real, m: MotionModel, applied: Twist, target: Twist, dt: real): V2 {
    V2(AdvanceAxis(lag, applied.x, target.x, m.tauVx, 0.0, 0.0, dt),
       AdvanceAxis(lag, applied.y, target.y, m.tauVy, 0.0, 0.0, dt))
  }

  function Follow(lib: Library, m: MotionModel, applied: Twist, target: Twist, dt: real): Twist {
    var w := AdvanceAxis(lib.lag, applied.w, target.w, m.tauOmega, m.maxAngularAccel, m.maxAngularAccel, dt);
    if VectorLimited(m) then
      var v := LimitTick(lib.hyp, V2(applied.x, applied.y), Destination(lib.lag, m, applied, target, dt),
                         m.maxLinearAccel, m.maxLinearDecel, dt);
      Twist(v.x, v.y, w)
    else
      Twist(AdvanceAxis(lib.lag, applied.x, target.x, m.tauVx, m.tractionAccelX, m.tractionDecelX, dt),
            AdvanceAxis(lib.lag, applied.y, target.y, m.tauVy, m.tractionAccelY, m.tractionDecelY, dt),
            w)
  }

  function Advance(lib: Library, m: MotionModel, s: Plant, dt: real): Plant {
    if dt <= 0.0 then s
    else
      var steps := DelaySteps(m.deadTime, dt);
      var bt := DelayStep(s.bufTangent, s.cmd.x, steps);
      var bn := DelayStep(s.bufNormal, s.cmd.y, steps);
      var bw := DelayStep(s.bufAngular, s.cmd.w, steps);
      var applied := Follow(lib, m, s.applied, Target(lib.hyp, m, Twist(bt[0], bn[0], bw[0])), dt);
      Plant(s.cmd, applied, applied, bt, bn, bw)
  }

  /** One tick of a run: the command latched when it comes, and its length. */
  datatype Tick = Tick(cmd: Twist, dt: real)

  function Run(lib: Library, m: MotionModel, s: Plant, ticks: seq<Tick>): Plant {
    if ticks == [] then s
    else
      var last := ticks[|ticks| - 1];
      Advance(lib, m, Run(lib, m, s, ticks[..|ticks| - 1]).(cmd := last.cmd), last.dt)
  }

  // --- the wheel budget -----------------------------------------------------------------------

  lemma {:induction false} PeakIsMax(m: MotionModel, t: Twist, k: nat)
    requires k <= |m.wheels|
    ensures 0.0 <= PeakOf(m, t, k)
    ensures forall i :: 0 <= i < k ==> Abs(WheelSpeed(m, m.wheels[i], t)) <= PeakOf(m, t, k)
    ensures PeakOf(m, t, k) == 0.0 || exists i :: 0 <= i < k && Abs(WheelSpeed(m, m.wheels[i], t)) == PeakOf(m, t, k)
  {
    hide WheelSpeed;
    if k > 0 {
      PeakIsMax(m, t, k - 1);
      if PeakOf(m, t, k) == PeakOf(m, t, k - 1) != 0.0 {
        var i :| 0 <= i < k - 1 && Abs(WheelSpeed(m, m.wheels[i], t)) == PeakOf(m, t, k - 1);
        assert Abs(WheelSpeed(m, m.wheels[i], t)) == PeakOf(m, t, k);
      }
    }
  }

  lemma WheelSpeedScales(m: MotionModel, wheel: Wheel, t: Twist, k: real)
    requires 0.0 <= k
    ensures WheelSpeed(m, wheel, ScaleTwist(k, t)) == k * WheelSpeed(m, wheel, t)
    ensures Abs(WheelSpeed(m, wheel, ScaleTwist(k, t))) == k * Abs(WheelSpeed(m, wheel, t))
  {
    ScaleThree(wheel.sin, wheel.cos, m.robotRadius, t.x, t.y, t.w, k);
    AbsScaled(k, WheelSpeed(m, wheel, t), WheelSpeed(m, wheel, ScaleTwist(k, t)));
  }

  lemma ScaleThree(a: real, b: real, c: real, x: real, y: real, z: real, k: real)
    ensures a * (x * k) - b * (y * k) - c * (z * k) == k * (a * x - b * y - c * z)
  {
  }

  lemma ScaleToBudget(budget: real, peak: real, v: real)
    requires 0.0 < budget < peak && 0.0 <= v <= peak
    ensures 0.0 < budget / peak < 1.0
    ensures (budget / peak) * v <= budget
    ensures v == peak ==> (budget / peak) * v == budget
  {
    Quotient(budget, peak);
    Cancel(peak, budget / peak, 1.0);
    ProductMonotone(v, peak, budget / peak);
  }

  ghost predicate WithinBudget(m: MotionModel, t: Twist) {
    forall i :: 0 <= i < |m.wheels| ==> Abs(WheelSpeed(m, m.wheels[i], t)) <= m.wheelBudget
  }

  ghost predicate AtBudget(m: MotionModel, t: Twist) {
    exists i :: 0 <= i < |m.wheels| && Abs(WheelSpeed(m, m.wheels[i], t)) == m.wheelBudget
  }

  lemma ScaledWheel(m: MotionModel, t: Twist, peak: real, k: real, i: nat)
    requires 0.0 < m.wheelBudget < peak && k == m.wheelBudget / peak && i < |m.wheels|
    requires Abs(WheelSpeed(m, m.wheels[i], t)) <= peak
    ensures Abs(WheelSpeed(m, m.wheels[i], ScaleTwist(k, t))) <= m.wheelBudget
    ensures Abs(WheelSpeed(m, m.wheels[i], t)) == peak ==> Abs(WheelSpeed(m, m.wheels[i], ScaleTwist(k, t))) == m.wheelBudget
  {
    hide WheelSpeed, ScaleTwist, Abs;
    AbsNonNegative(WheelSpeed(m, m.wheels[i], t));
    ScaleToBudget(m.wheelBudget, peak, Abs(WheelSpeed(m, m.wheels[i], t)));
    WheelSpeedScales(m, m.wheels[i], t, k);
  }

  lemma ScaledWheels(m: MotionModel, t: Twist, peak: real, k: real)
    requires peak == PeakOf(m, t, |m.wheels|) && 0.0 < m.wheelBudget < peak && k == m.wheelBudget / peak
    ensures 0.0 < k < 1.0 && WithinBudget(m, ScaleTwist(k, t)) && AtBudget(m, ScaleTwist(k, t)) && !WithinBudget(m, t)
  {
    var n := |m.wheels|;
    PeakIsMax(m, t, n);
    ScaleToBudget(m.wheelBudget, peak, peak);
    hide WheelSpeed, PeakOf, ScaleTwist, Abs;
    forall i | 0 <= i < n
      ensures Abs(WheelSpeed(m, m.wheels[i], ScaleTwist(k, t))) <= m.wheelBudget
    {
      ScaledWheel(m, t, peak, k, i);
    }
    var j :| 0 <= j < n && Abs(WheelSpeed(m, m.wheels[j], t)) == peak;
    ScaledWheel(m, t, peak, k, j);
  }

  /** The budget leaves a twist alone exactly when its wheels are within it, otherwise shrinks it as
      a whole, keeping its direction, until the fastest wheel is exactly at the budget. */
  lemma WheelBudgetHolds(m: MotionModel, t: Twist)
    requires 0.0 < m.wheelBudget
    ensures var r := BudgetWheels(m, t);
            && WithinBudget(m, r)
            && (WithinBudget(m, t) ==> r == t)
            && (!WithinBudget(m, t) ==> AtBudget(m, r) && exists k: real :: 0.0 < k < 1.0 && r == ScaleTwist(k, t))
  {
    PeakIsMax(m, t, |m.wheels|);
    var peak := PeakOf(m, t, |m.wheels|);
    hide PeakOf, ScaleTwist, WheelSpeed;
    if peak > m.wheelBudget {
      ScaledWheels(m, t, peak, m.wheelBudget / peak);
    }
  }

  // --- the speed disc -------------------------------------------------------------------------

  ghost predicate InDisc(p: V2, radius: real) {
    Dot(p, p) <= radius * radius
  }

  lemma ConvexCombination(p: real, q: real, a: real, b: real, c: real, r: real)
    requires 0.0 <= p && 0.0 <= q && p + 2.0 * q <= 1.0
    requires a <= r && b <= r && c <= r
    ensures p * a + 2.0 * q * c + (1.0 - p - 2.0 * q) * b <= r
  {
    NamedProductNonNegative(p, r - a, p * (r - a));
    NamedProductNonNegative(q, r - c, q * (r - c));
    NamedProductNonNegative(1.0 - p - 2.0 * q, r - b, (1.0 - p - 2.0 * q) * (r - b));
  }

  lemma Weights(k: real, p: real, q: real, s: real)
    requires 0.0 <= k <= 1.0 && p == (1.0 - k) * (1.0 - k) && q == k * (1.0 - k) && s == k * k
    ensures 0.0 <= p && 0.0 <= q && 0.0 <= s && p + 2.0 * q + s == 1.0
  {
    NamedProductNonNegative(k, k, s);
    NamedProductNonNegative(1.0 - k, 1.0 - k, p);
    NamedProductNonNegative(k, 1.0 - k, q);
  }

  lemma AlongSquare(a: real, b: real, k: real, p: real, q: real, s: real)
    requires p == (1.0 - k) * (1.0 - k) && q == k * (1.0 - k) && s == k * k
    ensures (a + k * (b - a)) * (a + k * (b - a)) == p * (a * a) + 2.0 * q * (a * b) + s * (b * b)
  {
  }

  lemma TwoProducts(a: real, b: real)
    ensures 2.0 * (a * b) <= a * a + b * b
  {
    SquareNonNegative(a - b);
    assert (a - b) * (a - b) == a * a - 2.0 * (a * b) + b * b;
  }

  /** A disc is convex. */
  lemma DiscConvex(a: V2, b: V2, k: real, radius: real)
    requires InDisc(a, radius) && InDisc(b, radius) && 0.0 <= k <= 1.0
    ensures InDisc(Along(a, b, k), radius)
  {
    var p, q, s := (1.0 - k) * (1.0 - k), k * (1.0 - k), k * k;
    Weights(k, p, q, s);
    AlongSquare(a.x, b.x, k, p, q, s);
    AlongSquare(a.y, b.y, k, p, q, s);
    TwoProducts(a.x, b.x);
    TwoProducts(a.y, b.y);
    SumOfWeighted(p, 2.0 * q, s, a.x * a.x, a.x * b.x, b.x * b.x, a.y * a.y, a.y * b.y, b.y * b.y);
    ConvexCombination(p, q, Dot(a, a), Dot(b, b), Dot(a, b), radius * radius);
    assert s * Dot(b, b) == (1.0 - p - 2.0 * q) * Dot(b, b);
  }

  lemma SumOfWeighted(p: real, q: real, s: real, a: real, b: real, c: real, d: real, e: real, f: real)
    ensures (p * a + q * b + s * c) + (p * d + q * e + s * f) == p * (a + d) + q * (b + e) + s * (c + f)
  {
  }

  lemma ShrinkInDisc(t: Twist, k: real, radius: real)
    requires InDisc(V2(t.x, t.y), radius) && 0.0 <= k <= 1.0
    ensures var r := ScaleTwist(k, t);
            InDisc(V2(r.x, r.y), radius)
  {
    var n := t.x * t.x + t.y * t.y;
    SquareNonNegative(t.x);
    SquareNonNegative(t.y);
    ScaledSquares(k, t.x, t.y, t.x * k, t.y * k, k * k, n);
    SquareShrinks(k, n, (k * k) * n);
  }

  lemma ScaledLength(hyp: (real, real) -> real, k: real, t: Twist, r: Twist)
    requires IsHypot(hyp) && 0.0 <= k && r == ScaleTranslation(k, t)
    ensures hyp(r.x, r.y) == k * hyp(t.x, t.y)
  {
    hide IsHypot;
    HypotScale(hyp, k, V2(t.x, t.y), r.x, r.y);
  }

  lemma SpeedIsInDisc(hyp: (real, real) -> real, p: V2, radius: real)
    requires IsHypot(hyp) && 0.0 <= radius
    ensures InDisc(p, radius) <==> hyp(p.x, p.y) <= radius
  {
    var h := hyp(p.x, p.y);
    HypotSquare(hyp, p.x, p.y);
    hide IsHypot;
    if h <= radius {
      ProductMonotone(h, radius, h);
      ProductMonotone(h, radius, radius);
    }
    if InDisc(p, radius) {
      SquareMonotone(h, radius);
    }
  }

  lemma CapLinearInDisc(hyp: (real, real) -> real, m: MotionModel, t: Twist)
    requires IsHypot(hyp) && 0.0 < m.maxLinearVel
    ensures var r := CapLinear(hyp, m, t);
            InDisc(V2(r.x, r.y), m.maxLinearVel)
  {
    hide InDisc, IsHypot, ScaleTranslation;
    var speed := hyp(t.x, t.y);
    if speed > m.maxLinearVel {
      Quotient(m.maxLinearVel, speed);
      var r := CapLinear(hyp, m, t);
      ScaledLength(hyp, m.maxLinearVel / speed, t, r);
      SpeedIsInDisc(hyp, V2(r.x, r.y), m.maxLinearVel);
    } else {
      SpeedIsInDisc(hyp, V2(t.x, t.y), m.maxLinearVel);
    }
  }

  lemma BudgetKeepsDisc(m: MotionModel, t: Twist, radius: real)
    requires InDisc(V2(t.x, t.y), radius)
    ensures var r := BudgetWheels(m, t);
            InDisc(V2(r.x, r.y), radius)
  {
    hide InDisc, PeakOf, ScaleTwist;
    var peak := PeakOf(m, t, |m.wheels|);
    if m.wheelBudget > 0.0 && peak > m.wheelBudget {
      ScaleToBudget(m.wheelBudget, peak, 0.0);
      ShrinkInDisc(t, m.wheelBudget / peak, radius);
    }
  }

  lemma TargetInDisc(hyp: (real, real) -> real, m: MotionModel, u: Twist)
    requires IsHypot(hyp) && 0.0 < m.maxLinearVel
    ensures var t := Target(hyp, m, u);
            InDisc(V2(t.x, t.y), m.maxLinearVel)
  {
    hide InDisc, IsHypot, BudgetWheels, CapLinear, CapAngular, Gain, DeadZone;
    var g := Gain(m, u.(w := DeadZone(m, u.w)));
    var c := CapLinear(hyp, m, g.(w := CapAngular(m, g.w)));
    CapLinearInDisc(hyp, m, g.(w := CapAngular(m, g.w)));
    BudgetKeepsDisc(m, c, m.maxLinearVel);
  }

  lemma UncappedAxis(lag: (real, real) -> real, applied: real, target: real, tau: real, dt: real)
    ensures AdvanceAxis(lag, applied, target, tau, 0.0, 0.0, dt) == applied + Alpha(lag, tau, dt) * (target - applied)
  {
  }

  /** Both axes lag alike in a tick of length dt, as they do with one time constant for both. */
  predicate EqualLags(lag: (real, real) -> real, m: MotionModel, dt: real) {
    Alpha(lag, m.tauVx, dt) == Alpha(lag, m.tauVy, dt)
  }

  /** With equal lags the destination lies on the segment to the target. */
  lemma DestinationOnSegment(lag: (real, real) -> real, m: MotionModel, applied: Twist, target: Twist, dt: real)
    requires EqualLags(lag, m, dt)
    ensures Destination(lag, m, applied, target, dt)
         == Along(V2(applied.x, applied.y), V2(target.x, target.y), Alpha(lag, m.tauVx, dt))
  {
    hide Alpha;
    UncappedAxis(lag, applied.x, target.x, m.tauVx, dt);
    UncappedAxis(lag, applied.y, target.y, m.tauVy, dt);
    SameFactor(target.y - applied.y, Alpha(lag, m.tauVx, dt), Alpha(lag, m.tauVy, dt));
  }

  /** One step keeps the speed below the limit. */
  lemma FollowKeepsDisc(lib: Library, m: MotionModel, applied: Twist, target: Twist, dt: real, radius: real)
    requires lib.Valid() && 0.0 < dt && VectorLimited(m) && EqualLags(lib.lag, m, dt)
    requires InDisc(V2(applied.x, applied.y), radius) && InDisc(V2(target.x, target.y), radius)
    ensures var r := Follow(lib, m, applied, target, dt);
            InDisc(V2(r.x, r.y), radius)
  {
    AlphaRange(lib.lag, m.tauVx, dt);
    DestinationOnSegment(lib.lag, m, applied, target, dt);
    hide InDisc, Alpha, AdvanceAxis, IsHypot, IsLag, LimitTick, Along, Destination;
    var v := V2(applied.x, applied.y);
    DiscConvex(v, V2(target.x, target.y), Alpha(lib.lag, m.tauVx, dt), radius);
    LimiterStaysOnSegment(lib, m, v, Destination(lib.lag, m, applied, target, dt), dt, radius);
  }

  lemma LimiterStaysOnSegment(lib: Library, m: MotionModel, v: V2, destination: V2, dt: real, radius: real)
    requires lib.Valid() && 0.0 < dt && VectorLimited(m)
    requires InDisc(v, radius) && InDisc(destination, radius)
    ensures InDisc(LimitTick(lib.hyp, v, destination, m.maxLinearAccel, m.maxLinearDecel, dt), radius)
  {
    hide InDisc, LimitTick, Along, IsHypot;
    TickBounds(lib.hyp, v, destination, m.maxLinearAccel, m.maxLinearDecel, dt);
    var v' := LimitTick(lib.hyp, v, destination, m.maxLinearAccel, m.maxLinearDecel, dt);
    var k :| 0.0 <= k <= 1.0 && v' == Along(v, destination, k);
    DiscConvex(v, destination, k, radius);
  }

  /** A tick of this length leads from no velocity and target of the disc out of it. */
  ghost predicate TickKeepsDisc(lib: Library, m: MotionModel, dt: real, radius: real) {
    forall applied: Twist, target: Twist :: InDisc(V2(applied.x, applied.y), radius) && InDisc(V2(target.x, target.y), radius) ==>
      var r := Follow(lib, m, applied, target, dt);
      InDisc(V2(r.x, r.y), radius)
  }

  /** Speed limit over whole runs: from reset, whatever is commanded and however long the ticks are,
      the vector limiter never lets the speed exceed maxLinearVel - if both axes lag alike in every tick,
      as they do with the same time constant. */
  lemma SpeedNeverExceedsLimit(lib: Library, m: MotionModel, ticks: seq<Tick>)
    requires lib.Valid() && VectorLimited(m) && 0.0 < m.maxLinearVel
    requires forall i :: 0 <= i < |ticks| && 0.0 < ticks[i].dt ==> EqualLags(lib.lag, m, ticks[i].dt)
    ensures var s := Run(lib, m, RESET, ticks);
            && s.vel == s.applied
            && lib.hyp(s.vel.x, s.vel.y) <= m.maxLinearVel
  {
    hide Run, InDisc, Follow, IsHypot, IsLag, EqualLags;
    forall i | 0 <= i < |ticks| && 0.0 < ticks[i].dt ensures TickKeepsDisc(lib, m, ticks[i].dt, m.maxLinearVel) {
      EqualLagsKeepDisc(lib, m, ticks[i].dt);
    }
    RunKeepsLimit(lib, m, ticks);
  }

  lemma EqualLagsKeepDisc(lib: Library, m: MotionModel, dt: real)
    requires lib.Valid() && 0.0 < dt && VectorLimited(m) && EqualLags(lib.lag, m, dt)
    ensures TickKeepsDisc(lib, m, dt, m.maxLinearVel)
  {
    hide InDisc, Follow, IsHypot, IsLag, EqualLags;
    forall applied: Twist, target: Twist
      | InDisc(V2(applied.x, applied.y), m.maxLinearVel) && InDisc(V2(target.x, target.y), m.maxLinearVel)
      ensures var r := Follow(lib, m, applied, target, dt); InDisc(V2(r.x, r.y), m.maxLinearVel)
    {
      FollowKeepsDisc(lib, m, applied, target, dt, m.maxLinearVel);
    }
  }

  /** Ticks that keep the disc make runs that keep the speed limit. */
  lemma RunKeepsLimit(lib: Library, m: MotionModel, ticks: seq<Tick>)
    requires lib.Valid() && 0.0 < m.maxLinearVel
    requires forall i :: 0 <= i < |ticks| && 0.0 < ticks[i].dt ==> TickKeepsDisc(lib, m, ticks[i].dt, m.maxLinearVel)
    ensures var s := Run(lib, m, RESET, ticks);
            s.vel == s.applied && lib.hyp(s.vel.x, s.vel.y) <= m.maxLinearVel
  {
    hide Run, InDisc, TickKeepsDisc, IsHypot, IsLag;
    var s := Run(lib, m, RESET, ticks);
    RunKeepsDisc(lib, m, ticks);
    SpeedIsInDisc(lib.hyp, V2(s.vel.x, s.vel.y), m.maxLinearVel);
  }

  lemma {:induction false} RunKeepsDisc(lib: Library, m: MotionModel, ticks: seq<Tick>)
    requires lib.Valid() && 0.0 < m.maxLinearVel
    requires forall i :: 0 <= i < |ticks| && 0.0 < ticks[i].dt ==> TickKeepsDisc(lib, m, ticks[i].dt, m.maxLinearVel)
    ensures var s := Run(lib, m, RESET, ticks);
            s.vel == s.applied && InDisc(V2(s.applied.x, s.applied.y), m.maxLinearVel)
  {
    if ticks == [] {
      ProductPositive(m.maxLinearVel, m.maxLinearVel);
      StillInDisc(m.maxLinearVel);
    } else {
      hide InDisc, Follow, Target, DelayStep, DelaySteps, IsHypot, IsLag, TickKeepsDisc;
      var last := ticks[|ticks| - 1];
      var s := Run(lib, m, RESET, ticks[..|ticks| - 1]).(cmd := last.cmd);
      RunKeepsDisc(lib, m, ticks[..|ticks| - 1]);
      if 0.0 < last.dt {
        var steps := DelaySteps(m.deadTime, last.dt);
        var u := Twist(DelayStep(s.bufTangent, s.cmd.x, steps)[0],
                       DelayStep(s.bufNormal, s.cmd.y, steps)[0],
                       DelayStep(s.bufAngular, s.cmd.w, steps)[0]);
        TargetInDisc(lib.hyp, m, u);
        KeptDisc(lib, m, s.applied, Target(lib.hyp, m, u), last.dt, m.maxLinearVel);
      }
    }
  }

  lemma KeptDisc(lib: Library, m: MotionModel, applied: Twist, target: Twist, dt: real, radius: real)
    requires TickKeepsDisc(lib, m, dt, radius) && InDisc(V2(applied.x, applied.y), radius) && InDisc(V2(target.x, target.y), radius)
    ensures var r := Follow(lib, m, applied, target, dt); InDisc(V2(r.x, r.y), radius)
  {
    hide InDisc, Follow;
  }

  lemma StillInDisc(radius: real)
    ensures InDisc(V2(0.0, 0.0), radius)
  {
    SquareNonNegative(radius);
  }
}
