/** What the plant is steered to: the delayed command after dead zone, gains, caps and wheel budget, told
    by its effect, for every tick of a run. */
module ActuationTarget {
  import opened RealMath
  import opened VectorLimiter
  import opened AxisLag
  import opened DelayLine
  import opened Actuation
  import opened ActuationRuns

  // --- the wheels ---------------------------------------------------------------------------------------

  /** Velocity of the point of the body at `arm` from its centre. */
  function PointVelocity(t: Twist, arm: V2): V2 {
    V2(t.x - t.w * arm.y, t.y + t.w * arm.x)
  }

  /** A wheel's rim speed is the velocity of its place on the body along the direction in which it rolls. */
  lemma RimSpeed(m: MotionModel, wheel: Wheel, t: Twist)
    requires wheel.sin * wheel.sin + wheel.cos * wheel.cos == 1.0
    ensures WheelSpeed(m, wheel, t)
         == Dot(PointVelocity(t, Scale(m.robotRadius, V2(wheel.cos, wheel.sin))), V2(wheel.sin, -wheel.cos))
  {
    var rs, rc := m.robotRadius * wheel.sin, m.robotRadius * wheel.cos;
    var turn := m.robotRadius * t.w;
    assert (t.w * rs) * wheel.sin == turn * (wheel.sin * wheel.sin);
    assert (t.w * rc) * wheel.cos == turn * (wheel.cos * wheel.cos);
    assert turn * (wheel.sin * wheel.sin) + turn * (wheel.cos * wheel.cos) == turn;
  }

  // --- one command --------------------------------------------------------------------------------------

  /** The forward and left velocity that the gains make of a command. */
  function Gained(m: MotionModel, u: Twist): V2 {
    V2(m.gainVx * u.x + m.gainVxFromUy * u.y, m.gainVy * u.y + m.gainVyFromUx * u.x)
  }

  /** w is the turn that is asked for: none within the dead zone, else the gained one, cut to the cap with
      its sign. */
  ghost predicate TurnFor(m: MotionModel, uw: real, w: real) {
    if m.omegaDeadZone > 0.0 && Abs(uw) < m.omegaDeadZone then w == 0.0
    else if m.maxAngularVel > 0.0 && Abs(m.gainOmega * uw) > m.maxAngularVel then
      Abs(w) == m.maxAngularVel && (w < 0.0 <==> m.gainOmega * uw < 0.0)
    else w == m.gainOmega * uw
  }

  /** r is v, cut to the speed limit in its direction if it is faster. */
  ghost predicate LinearCut(hyp: (real, real) -> real, m: MotionModel, v: V2, r: V2) {
    if m.maxLinearVel > 0.0 && hyp(v.x, v.y) > m.maxLinearVel then
      hyp(r.x, r.y) == m.maxLinearVel && exists k: real :: 0.0 < k < 1.0 && r == Scale(k, v)
    else r == v
  }

  function Shrunk(k: real, t: Twist): Twist {
    Twist(k * t.x, k * t.y, k * t.w)
  }

  /** r is t, shrunk as a whole to the wheel budget if a wheel is faster. */
  ghost predicate BudgetCut(m: MotionModel, t: Twist, r: Twist) {
    if m.wheelBudget > 0.0 && !WithinBudget(m, t) then
      WithinBudget(m, r) && AtBudget(m, r) && exists k: real :: 0.0 < k < 1.0 && r == Shrunk(k, t)
    else r == t
  }

  /** t is what a command u asks for: the translation is cut to the speed limit first, then the whole twist
      to the wheel budget. */
  ghost predicate AskedFor(hyp: (real, real) -> real, m: MotionModel, u: Twist, t: Twist) {
    exists cut: Twist ::
      TurnFor(m, u.w, cut.w) && LinearCut(hyp, m, Gained(m, u), V2(cut.x, cut.y)) && BudgetCut(m, cut, t)
  }

  lemma TurnForIs(m: MotionModel, uw: real, g: real, w: real)
    requires g == m.gainOmega * uw
    ensures TurnFor(m, uw, w)
            <==> if m.omegaDeadZone > 0.0 && Abs(uw) < m.omegaDeadZone then w == 0.0
                 else if m.maxAngularVel > 0.0 && Abs(g) > m.maxAngularVel then Abs(w) == m.maxAngularVel && (w < 0.0 <==> g < 0.0)
                 else w == g
  {
  }

  lemma GainedTurn(m: MotionModel, u: Twist, g: real)
    requires g == m.gainOmega * u.w
    ensures Gain(m, u.(w := DeadZone(m, u.w))).w == if m.omegaDeadZone > 0.0 && Abs(u.w) < m.omegaDeadZone then 0.0 else g
  {
    assert m.gainOmega * 0.0 == 0.0;
  }

  lemma TurnIs(m: MotionModel, u: Twist)
    ensures TurnFor(m, u.w, CapAngular(m, Gain(m, u.(w := DeadZone(m, u.w))).w))
  {
    hide TurnFor, Gain, DeadZone;
    var g := m.gainOmega * u.w;
    GainedTurn(m, u, g);
    TurnForIs(m, u.w, g, CapAngular(m, Gain(m, u.(w := DeadZone(m, u.w))).w));
  }

  lemma TurnOnly(m: MotionModel, uw: real, w: real, w': real)
    requires TurnFor(m, uw, w) && TurnFor(m, uw, w')
    ensures w == w'
  {
  }

  lemma LinearIs(hyp: (real, real) -> real, m: MotionModel, g: Twist)
    requires IsHypot(hyp)
    ensures var r := CapLinear(hyp, m, g);
            LinearCut(hyp, m, V2(g.x, g.y), V2(r.x, r.y)) && r.w == g.w
  {
    var speed := hyp(g.x, g.y);
    if m.maxLinearVel > 0.0 && speed > m.maxLinearVel {
      var k := m.maxLinearVel / speed;
      ProperFraction(m.maxLinearVel, speed);
      ScaledLength(hyp, k, g, CapLinear(hyp, m, g));
      hide IsHypot;
      assert V2(CapLinear(hyp, m, g).x, CapLinear(hyp, m, g).y) == Scale(k, V2(g.x, g.y));
    }
  }

  lemma LinearOnly(hyp: (real, real) -> real, m: MotionModel, v: V2, r: V2, r': V2)
    requires IsHypot(hyp) && LinearCut(hyp, m, v, r) && LinearCut(hyp, m, v, r')
    ensures r == r'
  {
    hide IsHypot, Scale;
    if m.maxLinearVel > 0.0 && hyp(v.x, v.y) > m.maxLinearVel {
      var k: real :| 0.0 < k < 1.0 && r == Scale(k, v);
      var k': real :| 0.0 < k' < 1.0 && r' == Scale(k', v);
      ScaledSpeed(hyp, k, v, r);
      ScaledSpeed(hyp, k', v, r');
      SameQuotient(k, k', hyp(v.x, v.y), m.maxLinearVel);
    }
  }

  lemma ScaledSpeed(hyp: (real, real) -> real, k: real, v: V2, r: V2)
    requires IsHypot(hyp) && 0.0 <= k && r == Scale(k, v)
    ensures hyp(r.x, r.y) == k * hyp(v.x, v.y)
  {
    hide IsHypot;
    HypotScale(hyp, k, v, r.x, r.y);
  }

  lemma SameQuotient(a: real, b: real, k: real, q: real)
    requires k > 0.0 && a * k == q && b * k == q
    ensures a == b
  {
    if a < b {
      NamedProductPositive(b - a, k, b * k - a * k);
    } else if b < a {
      NamedProductPositive(a - b, k, a * k - b * k);
    }
  }

  lemma ScaleIsShrunk(k: real, t: Twist)
    ensures ScaleTwist(k, t) == Shrunk(k, t)
  {
  }

  lemma BudgetIs(m: MotionModel, t: Twist)
    ensures BudgetCut(m, t, BudgetWheels(m, t))
  {
    var peak := PeakOf(m, t, |m.wheels|);
    PeakIsMax(m, t, |m.wheels|);
    hide PeakOf, WheelSpeed, Abs, ScaleTwist, Shrunk;
    if m.wheelBudget > 0.0 {
      if peak > m.wheelBudget {
        ScaledWheels(m, t, peak, m.wheelBudget / peak);
        ScaleIsShrunk(m.wheelBudget / peak, t);
      } else {
        assert WithinBudget(m, t);
      }
    }
  }

  lemma RimScales(m: MotionModel, wheel: Wheel, t: Twist, k: real)
    requires 0.0 <= k
    ensures Abs(WheelSpeed(m, wheel, Shrunk(k, t))) == k * Abs(WheelSpeed(m, wheel, t))
  {
    ScaleIsShrunk(k, t);
    WheelSpeedScales(m, wheel, t, k);
  }

  /** A factor that meets the budget is no larger than one that uses it up. */
  lemma BudgetBelow(m: MotionModel, t: Twist, k: real, k': real)
    requires 0.0 < m.wheelBudget && 0.0 < k && 0.0 < k' && WithinBudget(m, Shrunk(k, t)) && AtBudget(m, Shrunk(k', t))
    ensures k <= k'
  {
    hide WheelSpeed, Abs, Shrunk;
    var i :| 0 <= i < |m.wheels| && Abs(WheelSpeed(m, m.wheels[i], Shrunk(k', t))) == m.wheelBudget;
    RimScales(m, m.wheels[i], t, k);
    RimScales(m, m.wheels[i], t, k');
    AbsNonNegative(WheelSpeed(m, m.wheels[i], t));
    var v := Abs(WheelSpeed(m, m.wheels[i], t));
    SmallerFactor(k, k', v, k * v, m.wheelBudget);
  }

  lemma SmallerFactor(k: real, k': real, v: real, p: real, q: real)
    requires 0.0 <= v && p == k * v && q == k' * v && p <= q && 0.0 < q
    ensures k <= k'
  {
    if k > k' {
      assert v != 0.0;
      NamedProductPositive(k - k', v, p - q);
    }
  }

  lemma BudgetOnly(m: MotionModel, t: Twist, r: Twist, r': Twist)
    requires BudgetCut(m, t, r) && BudgetCut(m, t, r')
    ensures r == r'
  {
    hide WithinBudget, AtBudget, Shrunk;
    if m.wheelBudget > 0.0 && !WithinBudget(m, t) {
      var k: real :| 0.0 < k < 1.0 && r == Shrunk(k, t);
      var k': real :| 0.0 < k' < 1.0 && r' == Shrunk(k', t);
      BudgetBelow(m, t, k, k');
      BudgetBelow(m, t, k', k);
    }
  }

  lemma GainIs(m: MotionModel, u: Twist)
    ensures V2(Gain(m, u).x, Gain(m, u).y) == Gained(m, u)
  {
  }

  lemma TargetAskedFor(hyp: (real, real) -> real, m: MotionModel, u: Twist) returns (cut: Twist)
    requires IsHypot(hyp)
    ensures TurnFor(m, u.w, cut.w) && LinearCut(hyp, m, Gained(m, u), V2(cut.x, cut.y)) && BudgetCut(m, cut, Target(hyp, m, u))
  {
    TurnIs(m, u);
    GainIs(m, u.(w := DeadZone(m, u.w)));
    assert Gained(m, u.(w := DeadZone(m, u.w))) == Gained(m, u);
    hide IsHypot, Gain, Gained, CapLinear, BudgetWheels, LinearCut, BudgetCut, TurnFor, DeadZone, CapAngular;
    var g := Gain(m, u.(w := DeadZone(m, u.w)));
    LinearIs(hyp, m, g.(w := CapAngular(m, g.w)));
    cut := CapLinear(hyp, m, g.(w := CapAngular(m, g.w)));
    BudgetIs(m, cut);
  }

  /** The target of a command is what it asks for, and nothing else is: dead zone, gains, the cap on the
      turn, the speed limit, then the wheel budget on all of it. */
  lemma TargetExactly(hyp: (real, real) -> real, m: MotionModel, u: Twist, t: Twist)
    requires IsHypot(hyp)
    ensures t == Target(hyp, m, u) <==> AskedFor(hyp, m, u, t)
  {
    var cut := TargetAskedFor(hyp, m, u);
    hide IsHypot, Target, LinearCut, BudgetCut, TurnFor, Gained;
    if AskedFor(hyp, m, u, t) {
      var cut': Twist :|
        TurnFor(m, u.w, cut'.w) && LinearCut(hyp, m, Gained(m, u), V2(cut'.x, cut'.y)) && BudgetCut(m, cut', t);
      TurnOnly(m, u.w, cut.w, cut'.w);
      LinearOnly(hyp, m, Gained(m, u), V2(cut.x, cut.y), V2(cut'.x, cut'.y));
      BudgetOnly(m, cut, t, Target(hyp, m, u));
    }
  }

  /** No wheel of a target is faster than the budget. */
  lemma TargetWithinBudget(hyp: (real, real) -> real, m: MotionModel, u: Twist)
    requires IsHypot(hyp) && 0.0 < m.wheelBudget
    ensures WithinBudget(m, Target(hyp, m, u))
  {
    var cut := TargetAskedFor(hyp, m, u);
    hide IsHypot, Target, LinearCut, TurnFor, WithinBudget, AtBudget, Gained, Shrunk;
  }

  /** A command after the gains, before any cap. */
  function Uncut(m: MotionModel, u: Twist): Twist {
    Twist(Gained(m, u).x, Gained(m, u).y, m.gainOmega * u.w)
  }

  /** A command that nothing caps is only gained. */
  lemma TargetUntouched(hyp: (real, real) -> real, m: MotionModel, u: Twist)
    requires IsHypot(hyp)
    requires m.omegaDeadZone > 0.0 ==> m.omegaDeadZone <= Abs(u.w)
    requires m.maxAngularVel > 0.0 ==> Abs(Uncut(m, u).w) <= m.maxAngularVel
    requires m.maxLinearVel > 0.0 ==> hyp(Uncut(m, u).x, Uncut(m, u).y) <= m.maxLinearVel
    requires m.wheelBudget > 0.0 ==> WithinBudget(m, Uncut(m, u))
    ensures Target(hyp, m, u) == Uncut(m, u)
  {
    UncutIs(m, u);
    hide *;
    var cut := TargetAskedFor(hyp, m, u);
    UncappedTurn(m, u.w, cut.w, Uncut(m, u).w);
    UncappedCut(hyp, m, Gained(m, u), cut, Target(hyp, m, u), Uncut(m, u));
  }

  lemma UncutIs(m: MotionModel, u: Twist)
    ensures V2(Uncut(m, u).x, Uncut(m, u).y) == Gained(m, u) && Uncut(m, u).w == m.gainOmega * u.w
  {
  }

  lemma UncappedCut(hyp: (real, real) -> real, m: MotionModel, v: V2, cut: Twist, t: Twist, g: Twist)
    requires LinearCut(hyp, m, v, V2(cut.x, cut.y)) && BudgetCut(m, cut, t) && V2(g.x, g.y) == v && cut.w == g.w
    requires m.maxLinearVel > 0.0 ==> hyp(g.x, g.y) <= m.maxLinearVel
    requires m.wheelBudget > 0.0 ==> WithinBudget(m, g)
    ensures t == g
  {
    hide WithinBudget, AtBudget, Shrunk, Scale;
    assert cut == g;
  }

  lemma UncappedTurn(m: MotionModel, uw: real, w: real, g: real)
    requires TurnFor(m, uw, w) && g == m.gainOmega * uw
    requires m.omegaDeadZone > 0.0 ==> m.omegaDeadZone <= Abs(uw)
    requires m.maxAngularVel > 0.0 ==> Abs(g) <= m.maxAngularVel
    ensures w == g
  {
  }

  // --- every tick of a run --------------------------------------------------------------------------------

  /** In every tick of a run the plant follows what the command that leaves the delay line asks for. */
  lemma RunFollows(lib: Library, m: MotionModel, ticks: seq<Tick>) returns (t: Twist)
    requires lib.Valid() && ticks != [] && PositiveTicks(ticks)
    ensures AskedFor(lib.hyp, m, Emerging(m, ticks), t)
    ensures 0.0 < m.wheelBudget ==> WithinBudget(m, t)
    ensures 0.0 < m.maxLinearVel ==> InDisc(V2(t.x, t.y), m.maxLinearVel)
    ensures var n := |ticks| - 1;
            var s := Run(lib, m, RESET, ticks);
            s.vel == s.applied == Follow(lib, m, Run(lib, m, RESET, ticks[..n]).applied, t, ticks[n].dt)
  {
    var n := |ticks| - 1;
    var u := Emerging(m, ticks);
    t := Target(lib.hyp, m, u);
    TargetExactly(lib.hyp, m, u, t);
    if 0.0 < m.wheelBudget {
      TargetWithinBudget(lib.hyp, m, u);
    }
    if 0.0 < m.maxLinearVel {
      TargetInDisc(lib.hyp, m, u);
    }
    hide IsHypot, IsLag, Advance, Target, Follow, Emerging, AskedFor, WithinBudget, InDisc;
    OutputsOfRun(lib, m, ticks);
    AdvanceFollows(lib, m, Run(lib, m, RESET, ticks[..n]).(cmd := ticks[n].cmd), ticks[n].dt);
  }
}
