/** Steering the plant from reset: any sequence of velocities within the speed limit can be made the
    targets of consecutive ticks, whatever the dead time. */
module ActuationDrive {
  import opened RealMath
  import opened VectorLimiter
  import opened AxisLag
  import opened DelayLine
  import opened Actuation
  import opened ActuationRuns

  function Determinant(m: MotionModel): real {
    m.gainVx * m.gainVy - m.gainVxFromUy * m.gainVyFromUx
  }

  /** There is a speed limit, the gains can be inverted, and the wheel budget leaves every translation
      within the limit alone. */
  ghost predicate Steerable(m: MotionModel) {
    && 0.0 < m.maxLinearVel && Determinant(m) != 0.0
    && (m.wheelBudget > 0.0 ==> m.maxLinearVel <= m.wheelBudget && UnitWheels(m))
  }

  ghost predicate UnitWheels(m: MotionModel) {
    forall i :: 0 <= i < |m.wheels| ==> m.wheels[i].sin * m.wheels[i].sin + m.wheels[i].cos * m.wheels[i].cos == 1.0
  }

  function Moving(p: V2): Twist {
    Twist(p.x, p.y, 0.0)
  }

  function Translation(t: Twist): V2 {
    V2(t.x, t.y)
  }

  /** The command that asks for the velocity p. */
  function CommandFor(m: MotionModel, p: V2): Twist
    requires Determinant(m) != 0.0
  {
    Twist((m.gainVy * p.x - m.gainVxFromUy * p.y) / Determinant(m), (m.gainVx * p.y - m.gainVyFromUx * p.x) / Determinant(m), 0.0)
  }

  lemma Cramer(a: real, b: real, c: real, e: real, det: real, px: real, py: real, ux: real, uy: real)
    requires det == a * b - c * e && det != 0.0 && det * ux == b * px - c * py && det * uy == a * py - e * px
    ensures a * ux + c * uy == px && b * uy + e * ux == py
  {
    assert det * (a * ux + c * uy) == a * (det * ux) + c * (det * uy);
    assert a * (b * px - c * py) + c * (a * py - e * px) == det * px;
    assert det * (b * uy + e * ux) == b * (det * uy) + e * (det * ux);
    assert b * (a * py - e * px) + e * (b * px - c * py) == det * py;
    DivMul(det, a * ux + c * uy);
    DivMul(det, px);
    DivMul(det, b * uy + e * ux);
    DivMul(det, py);
  }

  lemma Divides(a: real, k: real)
    requires k != 0.0
    ensures k * (a / k) == a
  {
  }

  lemma GainOfCommand(m: MotionModel, p: V2)
    requires Determinant(m) != 0.0
    ensures Gain(m, CommandFor(m, p)) == Moving(p)
  {
    var det := Determinant(m);
    var u := CommandFor(m, p);
    Divides(m.gainVy * p.x - m.gainVxFromUy * p.y, det);
    Divides(m.gainVx * p.y - m.gainVyFromUx * p.x, det);
    Cramer(m.gainVx, m.gainVy, m.gainVxFromUy, m.gainVyFromUx, det, p.x, p.y, u.x, u.y);
    assert m.gainOmega * 0.0 == 0.0;
    hide CommandFor, Determinant;
  }

  lemma WheelBelow(s: real, c: real, x: real, y: real, limit: real, w: real)
    requires w == s * x - c * y && s * s + c * c == 1.0 && x * x + y * y <= limit * limit && 0.0 <= limit
    ensures Abs(w) <= limit
  {
    var n := x * x + y * y;
    var z := s * y + c * x;
    assert w * w + z * z == (s * s + c * c) * n;
    SquareNonNegative(z);
    AbsSquare(w);
    hide Abs;
    assert 1.0 * n == n;
    SameFactor(n, s * s + c * c, 1.0);
    SquareMonotone(Abs(w), limit);
  }

  lemma WheelWithinLimit(m: MotionModel, wheel: Wheel, p: V2)
    requires wheel.sin * wheel.sin + wheel.cos * wheel.cos == 1.0 && 0.0 <= m.maxLinearVel && InDisc(p, m.maxLinearVel)
    ensures Abs(WheelSpeed(m, wheel, Moving(p))) <= m.maxLinearVel
  {
    var w := WheelSpeed(m, wheel, Moving(p));
    assert w == wheel.sin * p.x - wheel.cos * p.y;
    hide WheelSpeed, Abs;
    WheelBelow(wheel.sin, wheel.cos, p.x, p.y, m.maxLinearVel, w);
  }

  lemma BudgetAllows(m: MotionModel, p: V2)
    requires Steerable(m) && InDisc(p, m.maxLinearVel)
    ensures BudgetWheels(m, Moving(p)) == Moving(p)
  {
    hide PeakOf, InDisc, WheelSpeed, Abs;
    if m.wheelBudget > 0.0 {
      PeakIsMax(m, Moving(p), |m.wheels|);
      forall i | 0 <= i < |m.wheels| ensures Abs(WheelSpeed(m, m.wheels[i], Moving(p))) <= m.maxLinearVel {
        WheelWithinLimit(m, m.wheels[i], p);
      }
    }
  }

  /** Every velocity within the limit is the target of its command. */
  lemma TargetOfCommand(lib: Library, m: MotionModel, p: V2)
    requires lib.Valid() && Steerable(m) && InDisc(p, m.maxLinearVel)
    ensures Target(lib.hyp, m, CommandFor(m, p)) == Moving(p)
  {
    GainOfCommand(m, p);
    BudgetAllows(m, p);
    SpeedIsInDisc(lib.hyp, p, m.maxLinearVel);
    assert DeadZone(m, 0.0) == 0.0 && CapAngular(m, 0.0) == 0.0;
    hide IsHypot, IsLag, InDisc, Gain, DeadZone, CapAngular, BudgetWheels, Determinant, UnitWheels;
    assert CommandFor(m, p).(w := 0.0) == CommandFor(m, p);
  }

  /** The velocity after these targets, one a tick, from standing still. */
  function FollowAll(lib: Library, m: MotionModel, targets: seq<V2>, dt: real): Twist {
    if targets == [] then STILL
    else Follow(lib, m, FollowAll(lib, m, targets[..|targets| - 1], dt), Moving(targets[|targets| - 1]), dt)
  }

  function Repeat(p: V2, n: nat): seq<V2> {
    seq(n, _ => p)
  }

  lemma RepeatMore(lib: Library, m: MotionModel, p: V2, dt: real, n: nat)
    requires 0 < n
    ensures FollowAll(lib, m, Repeat(p, n), dt) == Follow(lib, m, FollowAll(lib, m, Repeat(p, n - 1), dt), Moving(p), dt)
  {
    hide Follow;
    assert Repeat(p, n)[..n - 1] == Repeat(p, n - 1);
  }

  lemma FollowLast(lib: Library, m: MotionModel, targets: seq<V2>, q: V2, dt: real)
    ensures FollowAll(lib, m, targets + [q], dt) == Follow(lib, m, FollowAll(lib, m, targets, dt), Moving(q), dt)
  {
    hide Follow;
    assert (targets + [q])[..|targets|] == targets;
  }

  ghost predicate AllInDisc(targets: seq<V2>, radius: real) {
    forall i :: 0 <= i < |targets| ==> InDisc(targets[i], radius)
  }

  /** Their commands, and as many idle ticks as the last of them takes through the delay line. */
  function Drive(m: MotionModel, targets: seq<V2>, dt: real): seq<Tick>
    requires Determinant(m) != 0.0
  {
    seq(|targets| + DelaySteps(m.deadTime, dt),
        i requires 0 <= i => Tick(if i < |targets| then CommandFor(m, targets[i]) else STILL, dt))
  }

  lemma ConstantlyRetained(steps: seq<nat>, delay: nat)
    requires forall i :: 0 <= i < |steps| ==> steps[i] == delay
    ensures Retained(steps, delay) <==> delay < |steps|
  {
  }

  lemma DriveEmerges(m: MotionModel, targets: seq<V2>, dt: real, n: nat)
    requires Determinant(m) != 0.0 && 0 < n <= |targets| + DelaySteps(m.deadTime, dt)
    ensures var delay := DelaySteps(m.deadTime, dt);
            Emerging(m, Drive(m, targets, dt)[..n]) == if n <= delay then STILL else CommandFor(m, targets[n - 1 - delay])
  {
    hide DelaySteps, CommandFor, Retained, Determinant;
    var ticks := Drive(m, targets, dt)[..n];
    ConstantlyRetained(Steps(m, ticks), DelaySteps(m.deadTime, dt));
  }

  lemma {:induction false} DrivePrefix(lib: Library, m: MotionModel, targets: seq<V2>, dt: real, n: nat)
    requires lib.Valid() && Steerable(m) && AllInDisc(targets, m.maxLinearVel) && 0.0 < dt
    requires n <= |targets| + DelaySteps(m.deadTime, dt)
    ensures var delay := DelaySteps(m.deadTime, dt);
            var s := Run(lib, m, RESET, Drive(m, targets, dt)[..n]);
            s.vel == s.applied == FollowAll(lib, m, if n <= delay then [] else targets[..n - delay], dt)
  {
    hide DelaySteps, CommandFor, Steerable, InDisc, IsHypot, IsLag, Target, Follow, Advance, Emerging;
    assert Determinant(m) != 0.0 by { SteerableGains(m); }
    hide Determinant;
    if n > 0 {
      var delay := DelaySteps(m.deadTime, dt);
      var ticks := Drive(m, targets, dt)[..n];
      assert ticks[..n - 1] == Drive(m, targets, dt)[..n - 1];
      DrivePrefix(lib, m, targets, dt, n - 1);
      DriveEmerges(m, targets, dt, n);
      OutputsOfRun(lib, m, ticks);
      AdvanceFollows(lib, m, Run(lib, m, RESET, ticks[..n - 1]).(cmd := ticks[n - 1].cmd), dt);
      if n <= delay {
        TargetOfStill(lib, m);
        FollowStill(lib, m, dt);
      } else {
        TargetOfCommand(lib, m, targets[n - 1 - delay]);
        assert targets[..n - delay][..n - delay - 1] == targets[..n - 1 - delay];
      }
    }
  }

  lemma SteerableGains(m: MotionModel)
    requires Steerable(m)
    ensures Determinant(m) != 0.0 && 0.0 < m.maxLinearVel
  {
  }

  ghost predicate OfLength(ticks: seq<Tick>, dt: real) {
    forall i :: 0 <= i < |ticks| ==> ticks[i].dt == dt
  }

  ghost predicate WithinLimit(lib: Library, m: MotionModel, ticks: seq<Tick>) {
    var v := Run(lib, m, RESET, ticks).vel;
    lib.hyp(v.x, v.y) <= m.maxLinearVel
  }

  /** Any targets within the limit can be given one a tick. */
  lemma DriveRun(lib: Library, m: MotionModel, targets: seq<V2>, dt: real)
    requires lib.Valid() && Steerable(m) && AllInDisc(targets, m.maxLinearVel) && 0.0 < dt
    ensures Determinant(m) != 0.0 && OfLength(Drive(m, targets, dt), dt)
    ensures Run(lib, m, RESET, Drive(m, targets, dt)).vel == FollowAll(lib, m, targets, dt)
  {
    hide *;
    SteerableGains(m);
    DriveShape(m, targets, dt);
    DrivePrefix(lib, m, targets, dt, |Drive(m, targets, dt)|);
  }

  lemma DriveShape(m: MotionModel, targets: seq<V2>, dt: real)
    requires Determinant(m) != 0.0
    ensures var ticks, delay := Drive(m, targets, dt), DelaySteps(m.deadTime, dt);
            && |ticks| == |targets| + delay && ticks[..|ticks|] == ticks && OfLength(ticks, dt)
            && (if |ticks| <= delay then [] else targets[..|ticks| - delay]) == targets
  {
    hide DelaySteps, CommandFor, Determinant;
  }

  /** Targets that lead out of the disc make a run that exceeds the limit. */
  lemma DriveEscapes(lib: Library, m: MotionModel, targets: seq<V2>, dt: real)
    requires lib.Valid() && Steerable(m) && AllInDisc(targets, m.maxLinearVel) && 0.0 < dt
    requires !InDisc(Translation(FollowAll(lib, m, targets, dt)), m.maxLinearVel)
    ensures exists ticks :: OfLength(ticks, dt) && !WithinLimit(lib, m, ticks)
  {
    SteerableGains(m);
    hide Run, FollowAll, Steerable, AllInDisc, IsHypot, IsLag, InDisc, Drive, Determinant;
    DriveRun(lib, m, targets, dt);
    var v := FollowAll(lib, m, targets, dt);
    SpeedIsInDisc(lib.hyp, Translation(v), m.maxLinearVel);
    assert !WithinLimit(lib, m, Drive(m, targets, dt));
  }
}
