/** The simulated robot (src/models/robot.cpp) with its fields updated in place; every method is
    proved against the plant on values. */
module RobotClass {
  import opened Options
  import opened RealMath
  import opened VectorLimiter
  import opened DelayLine
  import opened Actuation
  import AxisLag
  import opened KickLimits

  /** The move command of the ssl-simulation protocol. Only local velocities are acted on. */
  datatype Move = NoMove | WheelVelocity | LocalVelocity(forward: real, left: real, angular: real) | GlobalVelocity

  /** Kick speed in m/s with the cosine and sine of the kick angle. */
  datatype KickCommand = KickCommand(speed: real, cos: real, sin: real)
  {
    function AsKick(): Kick {
      Kick(cos * (speed * 1000.0), sin * (speed * 1000.0))
    }
  }

  // --- the kick command ---------------------------------------------------------------------------------

  /** A speed cut to a limit; a limit of 0 is none. */
  function Cut(limit: real, speed: real): real {
    if 0.0 < limit < speed then limit else speed
  }

  lemma KickTurned(k: KickCommand, s: real)
    requires k.cos * k.cos + k.sin * k.sin == 1.0 && s == 1000.0 * k.speed
    ensures var v := k.AsKick();
            v.forward == k.cos * s && v.up == k.sin * s && v.forward * v.forward + v.up * v.up == s * s
  {
    assert (k.cos * s) * (k.cos * s) == (k.cos * k.cos) * (s * s);
    assert (k.sin * s) * (k.sin * s) == (k.sin * k.sin) * (s * s);
    assert (k.cos * k.cos) * (s * s) + (k.sin * k.sin) * (s * s) == s * s;
  }

  /** A chip is latched with the elevation that was asked for and the asked speed, cut to the chip limit; a
      level kick forwards or backwards with the asked speed, cut to the straight limit. */
  lemma CommandedKick(hyp: (real, real) -> real, maxStraight: real, maxChip: real, k: KickCommand)
    requires IsHypot(hyp) && k.cos * k.cos + k.sin * k.sin == 1.0 && 0.0 < k.speed
    ensures var r := Limit(hyp, maxStraight, maxChip, k.AsKick());
            && (0.0 < k.sin ==>
                  0.0 < r.up && r.forward * k.sin == r.up * k.cos && hyp(r.forward, r.up) == Cut(maxChip, 1000.0 * k.speed))
            && (k.sin == 0.0 ==> r.up == 0.0 && r.forward == k.cos * Cut(maxStraight, 1000.0 * k.speed))
  {
    var s := 1000.0 * k.speed;
    var v := k.AsKick();
    KickTurned(k, s);
    HypotIs(hyp, v.forward, v.up, s);
    hide *;
    if 0.0 < k.sin {
      ChipKick(hyp, maxStraight, maxChip, v, k.cos, k.sin, s);
    } else if k.sin == 0.0 {
      assert v.up == 0.0;
      LevelKick(hyp, maxStraight, maxChip, k.cos, s, v);
    }
  }

  lemma ChipKick(hyp: (real, real) -> real, maxStraight: real, maxChip: real, v: Kick, cos: real, sin: real, s: real)
    requires IsHypot(hyp) && 0.0 < sin && 0.0 < s && v.forward == cos * s && v.up == sin * s && hyp(v.forward, v.up) == s
    ensures var r := Limit(hyp, maxStraight, maxChip, v);
            0.0 < r.up && r.forward * sin == r.up * cos && hyp(r.forward, r.up) == Cut(maxChip, s)
  {
    NamedProductPositive(sin, s, v.up);
    assert v.forward * sin == v.up * cos;
    KeepsElevation(hyp, maxStraight, maxChip, v, cos, sin);
    LimitHolds(hyp, maxStraight, maxChip, v);
    hide Limit, IsHypot, ScaleKick;
  }

  lemma KeepsElevation(hyp: (real, real) -> real, maxStraight: real, maxChip: real, v: Kick, cos: real, sin: real)
    requires 0.0 < v.up && v.forward * sin == v.up * cos
    ensures var r := Limit(hyp, maxStraight, maxChip, v);
            r.forward * sin == r.up * cos
  {
    if maxChip > 0.0 && hyp(v.forward, v.up) > maxChip {
      var q := maxChip / hyp(v.forward, v.up);
      assert (v.forward * q) * sin == q * (v.forward * sin);
      assert (v.up * q) * cos == q * (v.up * cos);
    }
  }

  lemma LevelKick(hyp: (real, real) -> real, maxStraight: real, maxChip: real, cos: real, s: real, v: Kick)
    requires cos * cos == 1.0 && 0.0 < s && v == Kick(cos * s, 0.0)
    ensures Limit(hyp, maxStraight, maxChip, v) == Kick(cos * Cut(maxStraight, s), 0.0)
  {
    if cos > 0.0 {
      assert cos == 1.0 by { SquareEqual(cos, 1.0); }
    } else {
      assert cos == -1.0 by { SquareEqual(-cos, 1.0); }
    }
  }

  class Robot {
    var kick: Kick          // forward and upward kick speed [mm/s], latched
    var spinner: real
    var cmd: Twist          // raw command (tangent, normal, angular)
    var applied: Twist      // velocity the plant has reached
    var vel: Twist          // velocity given to the body
    var model: MotionModel
    var maxStraightKickMmS: real
    var maxChipKickMmS: real
    var delayBufTangent: seq<real>
    var delayBufNormal: seq<real>
    var delayBufAngular: seq<real>

    ghost function PlantState(): Plant
      reads this
    {
      Plant(cmd, applied, vel, delayBufTangent, delayBufNormal, delayBufAngular)
    }

    constructor (model: MotionModel)
      ensures PlantState() == RESET && kick == Kick(0.0, 0.0) && spinner == 0.0
      ensures this.model == model && maxStraightKickMmS == 0.0 && maxChipKickMmS == 0.0
    {
      kick, spinner := Kick(0.0, 0.0), 0.0;
      cmd, applied, vel := STILL, STILL, STILL;
      this.model := model;
      maxStraightKickMmS, maxChipKickMmS := 0.0, 0.0;
      delayBufTangent, delayBufNormal, delayBufAngular := [], [], [];
    }

    method SetMotionModel(m: MotionModel)
      modifies this`model
      ensures model == m
    {
      model := m;
    }

    method SetKickLimits(maxStraight: real, maxChip: real)
      modifies this`maxStraightKickMmS, this`maxChipKickMmS
      ensures maxStraightKickMmS == maxStraight && maxChipKickMmS == maxChip
    {
      maxStraightKickMmS := maxStraight;
      maxChipKickMmS := maxChip;
    }

    /** Latches a mocSim command: speeds arrive in m/s, kicks are limited at once, velocities wait
        for the actuation. */
    method VisionUpdate(hyp: (real, real) -> real, kickMps: Kick, velocity: Twist, spin: bool)
      modifies this`kick, this`cmd, this`spinner
      ensures kick == Limit(hyp, maxStraightKickMmS, maxChipKickMmS, ScaleKick(1000.0, kickMps))
      ensures cmd == Twist(velocity.x * 1000.0, velocity.y * 1000.0, velocity.w)
      ensures spinner == if spin then 1.0 else 0.0
    {
      kick := ApplyKickLimits(hyp, ScaleKick(1000.0, kickMps));
      cmd := Twist(velocity.x * 1000.0, velocity.y * 1000.0, velocity.w);
      spinner := if spin then 1.0 else 0.0;
    }

    /** Latches a command of the ssl-simulation protocol. A command without a kick clears the kick;
        one without a usable velocity keeps the velocity command that is latched. */
    method ControlUpdate(hyp: (real, real) -> real, kickCmd: Option<KickCommand>, dribbler: Option<real>, move: Move)
      modifies this`kick, this`cmd, this`spinner
      ensures kick == if kickCmd.Some? && kickCmd.value.speed > 0.0
                      then Limit(hyp, maxStraightKickMmS, maxChipKickMmS, kickCmd.value.AsKick())
                      else Kick(0.0, 0.0)
      ensures cmd == if move.LocalVelocity?
                     then Twist(move.forward * 1000.0, move.left * 1000.0, move.angular)
                     else old(cmd)
      ensures spinner == if dribbler.Some? then dribbler.value else 0.0
    {
      if kickCmd.Some? && kickCmd.value.speed > 0.0 {
        kick := ApplyKickLimits(hyp, kickCmd.value.AsKick());
      } else {
        kick := Kick(0.0, 0.0);
      }
      spinner := 0.0;
      if dribbler.Some? {
        spinner := dribbler.value;
      }
      match move {
        case LocalVelocity(forward, left, angular) =>
          cmd := Twist(forward * 1000.0, left * 1000.0, angular);
        case _ =>
      }
    }

    method ApplyKickLimits(hyp: (real, real) -> real, k: Kick) returns (r: Kick)
      ensures r == Limit(hyp, maxStraightKickMmS, maxChipKickMmS, k)
    {
      r := k;
      if k.up > 0.0 {
        var speed := hyp(k.forward, k.up);
        if maxChipKickMmS > 0.0 && speed > maxChipKickMmS {
          r := ScaleKick(maxChipKickMmS / speed, k);
        }
      } else if maxStraightKickMmS > 0.0 && Abs(k.forward) > maxStraightKickMmS {
        r := k.(forward := CopySign(maxStraightKickMmS, k.forward));
      }
    }

    method ApplyWheelSpeedBudget(t: Twist) returns (r: Twist)
      ensures r == BudgetWheels(model, t)
    {
      r := t;
      var budget := model.wheelBudget;
      if budget <= 0.0 {
        return;
      }
      var peak := 0.0;
      for k := 0 to |model.wheels|
        invariant peak == PeakOf(model, t, k)
      {
        var v := WheelSpeed(model, model.wheels[k], t);
        peak := Max(peak, Abs(v));
      }
      if peak > budget {
        r := ScaleTwist(budget / peak, t);
      }
    }

    /** Called on a teleport: afterwards nothing of the robot's motion history is left. */
    method ResetMotion()
      modifies this`kick, this`spinner, this`cmd, this`applied, this`vel
      modifies this`delayBufTangent, this`delayBufNormal, this`delayBufAngular
      ensures PlantState() == RESET && kick == Kick(0.0, 0.0) && spinner == 0.0
    {
      kick := Kick(0.0, 0.0);
      spinner := 0.0;
      cmd := STILL;
      applied := STILL;
      vel := STILL;
      delayBufTangent := [];
      delayBufNormal := [];
      delayBufAngular := [];
    }

    static method AdvanceAxis(lag: (real, real) -> real, applied: real, target: real, tauSec: real,
                              accelLimit: real, decelLimit: real, dtSec: real) returns (next: real)
      ensures next == AxisLag.AdvanceAxis(lag, applied, target, tauSec, accelLimit, decelLimit, dtSec)
    {
      hide AxisLag.Lagged, AxisLag.Capped;
      next := FirstOrderLag(lag, applied, target, tauSec, dtSec);
      var limit := if Abs(next) > Abs(applied) then accelLimit else decelLimit;
      next := CapStep(applied, next, limit, dtSec);
    }

    static method CapStep(applied: real, uncapped: real, limit: real, dtSec: real) returns (next: real)
      ensures next == AxisLag.Capped(applied, uncapped, limit, dtSec)
    {
      next := uncapped;
      if limit > 0.0 {
        var maxDelta := limit * dtSec;
        var delta := next - applied;
        if Abs(delta) > maxDelta {
          next := applied + CopySign(maxDelta, delta);
        }
      }
    }

    static method FirstOrderLag(lag: (real, real) -> real, applied: real, target: real, tauSec: real, dtSec: real)
      returns (next: real)
      ensures next == AxisLag.Lagged(lag, applied, target, tauSec, dtSec)
    {
      var alpha := 1.0;
      if tauSec > 0.0 {
        alpha := lag(dtSec, tauSec);
      }
      assert alpha == AxisLag.Alpha(lag, tauSec, dtSec);
      hide AxisLag.Alpha;
      next := applied + alpha * (target - applied);
    }

    /** The combined limiter: brake to the slowest point of the line, accelerate with what is left
        of the tick. */
    static method AdvanceVector(hyp: (real, real) -> real, v: V2, destination: V2, accel: real, decel: real, dtSec: real)
      returns (v': V2)
      requires decel != 0.0
      ensures v' == LimitTick(hyp, v, destination, accel, decel, dtSec)
    {
      v' := v;
      var d := Minus(destination, v);
      var distance := hyp(d.x, d.y);
      if distance > 0.0 {
        var u := Direction(d, distance);
        var braking := Clamp(-Dot(v, u), 0.0, distance);
        var brakeStep := Min(braking, decel * dtSec);
        var remaining := Max(0.0, dtSec - brakeStep / decel);
        var step := brakeStep + Min(distance - brakeStep, accel * remaining);
        assert step == Travel(distance, BrakingLength(v, u, distance), accel, decel, dtSec);
        v' := Plus(v, Scale(step, u));
      }
    }

    /** The delayed command (all three axes through their own delay line) after dead zone, gains and
        caps. */
    method DelayedTarget(lib: Library, dtSec: real) returns (target: Twist)
      modifies this`delayBufTangent, this`delayBufNormal, this`delayBufAngular
      ensures delayBufTangent == DelayStep(old(delayBufTangent), cmd.x, DelaySteps(model.deadTime, dtSec))
      ensures delayBufNormal == DelayStep(old(delayBufNormal), cmd.y, DelaySteps(model.deadTime, dtSec))
      ensures delayBufAngular == DelayStep(old(delayBufAngular), cmd.w, DelaySteps(model.deadTime, dtSec))
      ensures target == Target(lib.hyp, model, Twist(delayBufTangent[0], delayBufNormal[0], delayBufAngular[0]))
    {
      hide DelayStep, DelaySteps, BudgetWheels, Gain, DeadZone, CapAngular, CapLinear;
      var ux, uy, uw;
      delayBufTangent, ux := Delayed(delayBufTangent, cmd.x, model.deadTime, dtSec);
      delayBufNormal, uy := Delayed(delayBufNormal, cmd.y, model.deadTime, dtSec);
      delayBufAngular, uw := Delayed(delayBufAngular, cmd.w, model.deadTime, dtSec);
      uw := DeadZone(model, uw);
      target := Gain(model, Twist(ux, uy, uw));
      target := target.(w := CapAngular(model, target.w));
      target := CapLinear(lib.hyp, model, target);
      target := ApplyWheelSpeedBudget(target);
    }

    /** One tick from the latched command to the velocity given to the body. */
    method AdvanceActuation(lib: Library, dtSec: real)
      modifies this`delayBufTangent, this`delayBufNormal, this`delayBufAngular, this`applied, this`vel
      ensures PlantState() == Advance(lib, model, old(PlantState()), dtSec)
    {
      hide DelayStep, DelaySteps, AxisLag.AdvanceAxis, LimitTick, Target;
      if dtSec <= 0.0 {
        return;
      }
      var target := DelayedTarget(lib, dtSec);
      var tangent, normal;
      if model.maxLinearAccel > 0.0 && model.maxLinearDecel > 0.0 {
        var nx := AdvanceAxis(lib.lag, applied.x, target.x, model.tauVx, 0.0, 0.0, dtSec);
        var ny := AdvanceAxis(lib.lag, applied.y, target.y, model.tauVy, 0.0, 0.0, dtSec);
        var v := AdvanceVector(lib.hyp, V2(applied.x, applied.y), V2(nx, ny),
                               model.maxLinearAccel, model.maxLinearDecel, dtSec);
        tangent, normal := v.x, v.y;
      } else {
        tangent := AdvanceAxis(lib.lag, applied.x, target.x, model.tauVx,
                               model.tractionAccelX, model.tractionDecelX, dtSec);
        normal := AdvanceAxis(lib.lag, applied.y, target.y, model.tauVy,
                              model.tractionAccelY, model.tractionDecelY, dtSec);
      }
      var angular := AdvanceAxis(lib.lag, applied.w, target.w, model.tauOmega,
                                 model.maxAngularAccel, model.maxAngularAccel, dtSec);
      applied := Twist(tangent, normal, angular);
      vel := applied;
    }
  }

  /** Two robots of one model, whatever each of them did before, behave alike for ever after both
      are reset: the same commands and ticks give the same velocities. */
  method ResetErasesHistory(lib: Library, a: Robot, b: Robot, ticks: seq<Tick>)
    requires a != b && a.model == b.model
    modifies a, b
    ensures a.PlantState() == b.PlantState() == Run(lib, old(a.model), RESET, ticks)
  {
    hide Advance;
    a.ResetMotion();
    b.ResetMotion();
    for n := 0 to |ticks|
      invariant a.model == b.model == old(a.model)
      invariant a.PlantState() == b.PlantState() == Run(lib, a.model, RESET, ticks[..n])
    {
      assert ticks[..n + 1][..n] == ticks[..n];
      a.cmd, b.cmd := ticks[n].cmd, ticks[n].cmd;
      a.AdvanceActuation(lib, ticks[n].dt);
      b.AdvanceActuation(lib, ticks[n].dt);
    }
    assert ticks[..|ticks|] == ticks;
  }
}
