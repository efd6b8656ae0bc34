/** Further run-level facts of the actuation plant: how ticks may be cut, what unequal time
    constants allow, silence after a reset, and the pass-through model. */
module ActuationRuns {
  import opened RealMath
  import opened VectorLimiter
  import opened AxisLag
  import opened DelayLine
  import opened Actuation

  // --- frame-partition independence of the whole robot ------------------------------------------

  predicate WithoutLag(m: MotionModel) {
    m.deadTime <= 0.0 && m.tauVx <= 0.0 && m.tauVy <= 0.0 && m.tauOmega <= 0.0
  }

  /** One command held over a sequence of ticks. */
  function Held(cmd: Twist, ticks: seq<real>): seq<Tick> {
    seq(|ticks|, i requires 0 <= i < |ticks| => Tick(cmd, ticks[i]))
  }

  lemma UndelayedStep(buf: seq<real>, cmd: real)
    ensures DelayStep(buf, cmd, 0) == [cmd]
  {
  }

  lemma UnlaggedAxis(lag: (real, real) -> real, applied: real, target: real, tau: real, dt: real)
    requires tau <= 0.0
    ensures Lagged(lag, applied, target, tau, dt) == target
    ensures AdvanceAxis(lag, applied, target, tau, 0.0, 0.0, dt) == target
  {
    assert Alpha(lag, tau, dt) == 1.0;
    Blend(applied, target, 1.0);
  }

  /** Moving at a rate of at most `limit` towards the target (no cap when limit <= 0). */
  lemma UnlaggedRate(lag: (real, real) -> real, applied: real, target: real, tau: real, limit: real, dt: real)
    requires tau <= 0.0
    ensures AdvanceAxis(lag, applied, target, tau, limit, limit, dt) == Capped(applied, target, limit, dt)
  {
    UnlaggedAxis(lag, applied, target, tau, dt);
  }

  lemma CappedAdds(applied: real, target: real, limit: real, s: real, t: real)
    requires 0.0 <= s && 0.0 <= t
    ensures Capped(Capped(applied, target, limit, s), target, limit, t) == Capped(applied, target, limit, s + t)
  {
    if 0.0 < limit {
      ProductNonNegative(limit, s);
      ProductNonNegative(limit, t);
      assert limit * (s + t) == limit * s + limit * t;
    }
  }

  lemma AdvanceWithoutLag(lib: Library, m: MotionModel, s: Plant, dt: real)
    requires WithoutLag(m) && VectorLimited(m) && 0.0 < dt
    ensures var t := Target(lib.hyp, m, s.cmd);
            var v := LimitTick(lib.hyp, V2(s.applied.x, s.applied.y), V2(t.x, t.y), m.maxLinearAccel, m.maxLinearDecel, dt);
            Advance(lib, m, s, dt).applied == Twist(v.x, v.y, Capped(s.applied.w, t.w, m.maxAngularAccel, dt))
  {
    assert DelaySteps(m.deadTime, dt) == 0;
    UndelayedStep(s.bufTangent, s.cmd.x);
    UndelayedStep(s.bufNormal, s.cmd.y);
    UndelayedStep(s.bufAngular, s.cmd.w);
    hide DelayStep, DelaySteps, Target, AdvanceAxis, LimitTick, Capped;
    var t := Target(lib.hyp, m, s.cmd);
    UnlaggedAxis(lib.lag, s.applied.x, t.x, m.tauVx, dt);
    UnlaggedAxis(lib.lag, s.applied.y, t.y, m.tauVy, dt);
    UnlaggedRate(lib.lag, s.applied.w, t.w, m.tauOmega, m.maxAngularAccel, dt);
  }

  /** Frame-partition independence of the robot: with no dead time and no lag, holding a command for
      any sequence of ticks gives the velocity that one tick of their total length gives - forward,
      left and angular. */
  lemma {:induction false} RobotPartitionIndependence(lib: Library, m: MotionModel, s: Plant, cmd: Twist, ticks: seq<real>)
    requires lib.Valid() && WithoutLag(m) && VectorLimited(m)
    requires ticks != [] && AllPositive(ticks)
    ensures Run(lib, m, s, Held(cmd, ticks)).applied == Advance(lib, m, s.(cmd := cmd), Sum(ticks)).applied
  {
    hide Target, LimitTick, Capped, Advance, IsHypot, IsLag;
    var n := |ticks| - 1;
    var init, last := ticks[..n], ticks[n];
    assert Held(cmd, ticks)[..n] == Held(cmd, init);
    var before := Run(lib, m, s, Held(cmd, init)).(cmd := cmd);
    SumNonNegative(init);
    AdvanceWithoutLag(lib, m, before, last);
    AdvanceWithoutLag(lib, m, s.(cmd := cmd), Sum(ticks));
    if n == 0 {
      assert init == [];
      assert before.applied == s.applied;
    } else {
      RobotPartitionIndependence(lib, m, s, cmd, init);
      var t := Target(lib.hyp, m, cmd);
      assert 0.0 < Sum(init) by { SumNonNegative(init[..n - 1]); }
      AdvanceWithoutLag(lib, m, s.(cmd := cmd), Sum(init));
      LimitTickAdds(lib.hyp, V2(s.applied.x, s.applied.y), V2(t.x, t.y), m.maxLinearAccel, m.maxLinearDecel, Sum(init), last);
      CappedAdds(s.applied.w, t.w, m.maxAngularAccel, Sum(init), last);
    }
  }

  /** One axis of the limiter per axis, cut anywhere, gives what the uncut tick gives. */
  ghost predicate AxisPartitions(lag: (real, real) -> real, accel: real, decel: real) {
    forall applied: real, target: real, s: real, t: real :: 0.0 < s && 0.0 < t ==>
      AdvanceAxis(lag, AdvanceAxis(lag, applied, target, 0.0, accel, decel, s), target, 0.0, accel, decel, t)
      == AdvanceAxis(lag, applied, target, 0.0, accel, decel, s + t)
  }

  lemma UnlaggedCap(lag: (real, real) -> real, applied: real, target: real, accel: real, decel: real, dt: real)
    ensures AdvanceAxis(lag, applied, target, 0.0, accel, decel, dt)
         == Capped(applied, target, CapFor(applied, target, accel, decel), dt)
  {
    UnlaggedAxis(lag, applied, target, 0.0, dt);
    hide Capped, CapFor;
  }

  lemma StepOf(applied: real, target: real, limit: real, dt: real, d: real)
    requires 0.0 < limit && d == limit * dt && 0.0 <= d < target - applied
    ensures Capped(applied, target, limit, dt) == applied + d
  {
  }

  /** A reversal from -2 to 1, cut where it has come to -0.5: braking first, then the other limit. */
  lemma CutReversal(lag: (real, real) -> real, accel: real, decel: real)
    requires 0.0 < accel && 0.0 < decel && accel != decel
    ensures !AxisPartitions(lag, accel, decel)
  {
    var s := 1.5 / decel;
    var m := accel + decel;
    var t := 0.5 / m;
    Quotient(1.5, decel);
    Quotient(0.5, m);
    var a, d := accel * t, decel * t;
    NamedProductPositive(accel, t, a);
    NamedProductPositive(decel, t, d);
    assert a + d == 0.5 by { assert m * t == accel * t + decel * t; }
    assert decel * (s + t) == 1.5 + d;
    UnlaggedCap(lag, -2.0, 1.0, accel, decel, s);
    UnlaggedCap(lag, -2.0, 1.0, accel, decel, s + t);
    UnlaggedCap(lag, -0.5, 1.0, accel, decel, t);
    StepOf(-2.0, 1.0, decel, s, 1.5);
    StepOf(-2.0, 1.0, decel, s + t, 1.5 + d);
    StepOf(-0.5, 1.0, accel, t, a);
    CapsOfReversal(accel, decel);
    LimitsDiffer(accel, decel, t, a, d);
    hide AdvanceAxis, Capped, CapFor;
  }

  lemma CapsOfReversal(accel: real, decel: real)
    ensures CapFor(-2.0, 1.0, accel, decel) == decel && CapFor(-0.5, 1.0, accel, decel) == accel
  {
  }

  lemma LimitsDiffer(accel: real, decel: real, t: real, a: real, d: real)
    requires 0.0 < t && accel != decel && a == accel * t && d == decel * t
    ensures a != d
  {
    if accel < decel {
      ProductStrict(t, accel, decel);
    } else {
      ProductStrict(t, decel, accel);
    }
  }

  /** Without a limit on acceleration the second part of the same reversal takes no time. */
  lemma CutReversalUncapped(lag: (real, real) -> real, accel: real, decel: real)
    requires accel <= 0.0 < decel
    ensures !AxisPartitions(lag, accel, decel)
  {
    var s, t := 1.5 / decel, 0.5 / decel;
    Quotient(1.5, decel);
    Quotient(0.5, decel);
    assert decel * (s + t) == 2.0;
    UnlaggedCap(lag, -2.0, 1.0, accel, decel, s);
    UnlaggedCap(lag, -2.0, 1.0, accel, decel, s + t);
    UnlaggedCap(lag, -0.5, 1.0, accel, decel, t);
    StepOf(-2.0, 1.0, decel, s, 1.5);
    StepOf(-2.0, 1.0, decel, s + t, 2.0);
    NoCap(-0.5, 1.0, accel, t);
    CapsOfReversal(accel, decel);
    hide AdvanceAxis, Capped, CapFor;
  }

  /** With free braking an axis only ever waits for the limit on acceleration, from the start or from
      anywhere on the way. */
  lemma FreeBrakingAdds(lag: (real, real) -> real, applied: real, target: real, accel: real, decel: real, s: real, t: real)
    requires decel <= 0.0 && 0.0 < s && 0.0 < t
    ensures AdvanceAxis(lag, AdvanceAxis(lag, applied, target, 0.0, accel, decel, s), target, 0.0, accel, decel, t)
         == AdvanceAxis(lag, applied, target, 0.0, accel, decel, s + t)
  {
    var cut := AdvanceAxis(lag, applied, target, 0.0, accel, decel, s);
    UnlaggedCap(lag, applied, target, accel, decel, s);
    UnlaggedCap(lag, applied, target, accel, decel, s + t);
    UnlaggedCap(lag, cut, target, accel, decel, t);
    hide AdvanceAxis, Capped;
    CappedBetween(applied, target, CapFor(applied, target, accel, decel), s);
    if Abs(target) <= Abs(applied) {
      NoCap(applied, target, decel, s);
      NoCap(applied, target, decel, s + t);
      NoCap(target, target, decel, t);
    } else {
      CappedAdds(applied, target, accel, s, t);
      if cut == target {
        Arrived(target, accel, t);
        Arrived(target, decel, t);
      }
    }
  }

  lemma Arrived(target: real, limit: real, dt: real)
    requires 0.0 < dt
    ensures Capped(target, target, limit, dt) == target
  {
    if 0.0 < limit {
      ProductPositive(limit, dt);
    }
  }

  /** The limiter per axis is independent of how ticks are cut exactly when it does not limit braking,
      or brakes and accelerates alike; the vector limiter always is. A limit of 0 is none. */
  lemma AxisPartitionExactly(lag: (real, real) -> real, accel: real, decel: real)
    ensures AxisPartitions(lag, accel, decel) <==> decel <= 0.0 || accel == decel
  {
    if decel <= 0.0 {
      forall applied: real, target: real, s: real, t: real | 0.0 < s && 0.0 < t
        ensures AdvanceAxis(lag, AdvanceAxis(lag, applied, target, 0.0, accel, decel, s), target, 0.0, accel, decel, t)
             == AdvanceAxis(lag, applied, target, 0.0, accel, decel, s + t)
      {
        FreeBrakingAdds(lag, applied, target, accel, decel, s, t);
      }
    } else if accel == decel {
      forall applied: real, target: real, s: real, t: real | 0.0 < s && 0.0 < t
        ensures AdvanceAxis(lag, AdvanceAxis(lag, applied, target, 0.0, accel, decel, s), target, 0.0, accel, decel, t)
             == AdvanceAxis(lag, applied, target, 0.0, accel, decel, s + t)
      {
        UnlaggedRate(lag, applied, target, 0.0, accel, s);
        UnlaggedRate(lag, applied, target, 0.0, accel, s + t);
        UnlaggedRate(lag, Capped(applied, target, accel, s), target, 0.0, accel, t);
        CappedAdds(applied, target, accel, s, t);
      }
    } else if 0.0 < accel {
      CutReversal(lag, accel, decel);
    } else {
      CutReversalUncapped(lag, accel, decel);
    }
  }

  // --- unequal time constants -------------------------------------------------------------------

  ghost predicate InBox(t: Twist, bound: real) {
    Abs(t.x) <= bound && Abs(t.y) <= bound
  }

  lemma DiscInBox(p: V2, radius: real)
    requires 0.0 <= radius && InDisc(p, radius)
    ensures Abs(p.x) <= radius && Abs(p.y) <= radius
  {
    SquareNonNegative(p.x);
    SquareNonNegative(p.y);
    AbsSquare(p.x);
    AbsSquare(p.y);
    hide Abs;
    SquareMonotone(Abs(p.x), radius);
    SquareMonotone(Abs(p.y), radius);
  }

  lemma AbsSquare(x: real)
    ensures Abs(x) * Abs(x) == x * x
  {
  }

  lemma AlongBetween(a: V2, b: V2, k: real)
    requires 0.0 <= k <= 1.0
    ensures Between(a.x, Along(a, b, k).x, b.x) && Between(a.y, Along(a, b, k).y, b.y)
  {
    Blend(a.x, b.x, k);
    Blend(a.y, b.y, k);
  }

  lemma BetweenInBox(a: real, x: real, b: real, bound: real)
    requires Between(a, x, b) && Abs(a) <= bound && Abs(b) <= bound
    ensures Abs(x) <= bound
  {
  }

  lemma FollowKeepsBox(lib: Library, m: MotionModel, applied: Twist, target: Twist, dt: real, bound: real)
    requires lib.Valid() && 0.0 < dt && InBox(applied, bound) && InBox(target, bound)
    ensures InBox(Follow(lib, m, applied, target, dt), bound)
  {
    hide AdvanceAxis, LimitTick, IsHypot, IsLag, Between, Abs, Along;
    if VectorLimited(m) {
      var v := V2(applied.x, applied.y);
      var d := Destination(lib.lag, m, applied, target, dt);
      AxisTickSafe(lib.lag, applied.x, target.x, m.tauVx, 0.0, 0.0, dt);
      AxisTickSafe(lib.lag, applied.y, target.y, m.tauVy, 0.0, 0.0, dt);
      BetweenInBox(applied.x, d.x, target.x, bound);
      BetweenInBox(applied.y, d.y, target.y, bound);
      TickBounds(lib.hyp, v, d, m.maxLinearAccel, m.maxLinearDecel, dt);
      var r := LimitTick(lib.hyp, v, d, m.maxLinearAccel, m.maxLinearDecel, dt);
      var k :| 0.0 <= k <= 1.0 && r == Along(v, d, k);
      AlongBetween(v, d, k);
      BetweenInBox(applied.x, r.x, d.x, bound);
      BetweenInBox(applied.y, r.y, d.y, bound);
    } else {
      AxisTickSafe(lib.lag, applied.x, target.x, m.tauVx, m.tractionAccelX, m.tractionDecelX, dt);
      AxisTickSafe(lib.lag, applied.y, target.y, m.tauVy, m.tractionAccelY, m.tractionDecelY, dt);
      var r := Follow(lib, m, applied, target, dt);
      BetweenInBox(applied.x, r.x, target.x, bound);
      BetweenInBox(applied.y, r.y, target.y, bound);
    }
  }

  /** Whatever the time constants and whichever limiter is in force, each axis on its own stays
      within the speed limit over every run from reset. */
  lemma {:induction false} AxesNeverExceedLimit(lib: Library, m: MotionModel, ticks: seq<Tick>)
    requires lib.Valid() && 0.0 < m.maxLinearVel
    ensures var s := Run(lib, m, RESET, ticks);
            s.vel == s.applied && InBox(s.vel, m.maxLinearVel)
  {
    if ticks != [] {
      var last := ticks[|ticks| - 1];
      var s := Run(lib, m, RESET, ticks[..|ticks| - 1]).(cmd := last.cmd);
      AxesNeverExceedLimit(lib, m, ticks[..|ticks| - 1]);
      hide InBox, InDisc, Follow, Target, DelayStep, DelaySteps, IsHypot, IsLag;
      if 0.0 < last.dt {
        var steps := DelaySteps(m.deadTime, last.dt);
        var u := Twist(DelayStep(s.bufTangent, s.cmd.x, steps)[0],
                       DelayStep(s.bufNormal, s.cmd.y, steps)[0],
                       DelayStep(s.bufAngular, s.cmd.w, steps)[0]);
        var t := Target(lib.hyp, m, u);
        TargetInBox(lib.hyp, m, u);
        FollowKeepsBox(lib, m, s.applied, t, last.dt, m.maxLinearVel);
      }
    }
  }

  lemma TargetInBox(hyp: (real, real) -> real, m: MotionModel, u: Twist)
    requires IsHypot(hyp) && 0.0 < m.maxLinearVel
    ensures InBox(Target(hyp, m, u), m.maxLinearVel)
  {
    hide Target, IsHypot, InDisc, Abs;
    var t := Target(hyp, m, u);
    TargetInDisc(hyp, m, u);
    DiscInBox(V2(t.x, t.y), m.maxLinearVel);
  }

  /** Two lags applied per axis, as Destination does. */
  function LagBoth(ax: real, ay: real, v: V2, t: V2): V2 {
    V2(LagOne(ax, v.x, t.x), LagOne(ay, v.y, t.y))
  }

  function LagOne(a: real, v: real, t: real): real {
    v + a * (t - v)
  }

  lemma TurnInsideDisc(e: real, q: real)
    requires 0.0 <= e <= 1.0 && q == e * e
    ensures var t := V2(0.6 - 0.8 * e - 0.6 * q, 0.8 + 0.6 * e - 0.8 * q);
            Dot(t, t) <= 1.0
  {
    var t := V2(0.6 - 0.8 * e - 0.6 * q, 0.8 + 0.6 * e - 0.8 * q);
    assert t.x * t.x + t.y * t.y == (1.0 - q) * (1.0 - q) + q;
    NamedProductNonNegative(e, e, q);
    NamedProductNonNegative(e, 1.0 - e, e - q);
    NamedProductNonNegative(q, 1.0 - q, q * (1.0 - q));
  }

  lemma RadialPart(ax: real, ay: real, e: real, q: real)
    ensures 0.6 * (ax * (-0.8 * e - 0.6 * q)) + 0.8 * (ay * (0.6 * e - 0.8 * q))
         == 0.48 * (e * (ay - ax)) - q * (0.36 * ax + 0.64 * ay)
  {
  }

  lemma RadialPartPositive(ax: real, ay: real, e: real, q: real)
    requires 0.0 < ax < ay <= 1.0 && e == (ay - ax) * 0.25 && q == e * e
    ensures 0.0 < 0.48 * (e * (ay - ax)) - q * (0.36 * ax + 0.64 * ay)
  {
    var w := 0.36 * ax + 0.64 * ay;
    assert e * (ay - ax) == 4.0 * q;
    NamedProductPositive(e, e, q);
    NamedProductPositive(q, 1.92 - w, 1.92 * q - q * w);
  }

  lemma OutwardStep(x: real, y: real)
    requires 0.0 < 0.6 * x + 0.8 * y
    ensures 1.0 < (0.6 + x) * (0.6 + x) + (0.8 + y) * (0.8 + y)
  {
    SquareNonNegative(x);
    SquareNonNegative(y);
  }

  /** A point of the unit circle and a target a small turn further from which unequal lags lead out. */
  lemma OutwardPoint(ax: real, ay: real) returns (t: V2)
    requires 0.0 < ax < ay <= 1.0
    ensures Dot(t, t) <= 1.0 && 0.0 < 0.6 * (ax * (t.x - 0.6)) + 0.8 * (ay * (t.y - 0.8))
  {
    var e := (ay - ax) * 0.25;
    var q := e * e;
    t := V2(0.6 - 0.8 * e - 0.6 * q, 0.8 + 0.6 * e - 0.8 * q);
    TurnInsideDisc(e, q);
    RadialPart(ax, ay, e, q);
    RadialPartPositive(ax, ay, e, q);
  }

  lemma LagEscapes(ax: real, ay: real) returns (v: V2, t: V2)
    requires 0.0 < ax < ay <= 1.0
    ensures InDisc(v, 1.0) && InDisc(t, 1.0) && !InDisc(LagBoth(ax, ay, v, t), 1.0)
  {
    v := V2(0.6, 0.8);
    t := OutwardPoint(ax, ay);
    EscapePoint(ax, ay, v, t);
  }

  lemma EscapePoint(ax: real, ay: real, v: V2, t: V2)
    requires v == V2(0.6, 0.8) && Dot(t, t) <= 1.0
    requires 0.0 < 0.6 * (ax * (t.x - 0.6)) + 0.8 * (ay * (t.y - 0.8))
    ensures InDisc(v, 1.0) && InDisc(t, 1.0) && !InDisc(LagBoth(ax, ay, v, t), 1.0)
  {
    OutwardStep(ax * (t.x - 0.6), ay * (t.y - 0.8));
  }

  lemma ScaledBelow(q: real, n: real)
    requires 0.0 < q
    ensures q * n <= q <==> n <= 1.0
  {
    if n <= 1.0 {
      ProductMonotone(n, 1.0, q);
    } else {
      ProductStrict(q, 1.0, n);
    }
  }

  lemma DiscScales(v: V2, radius: real)
    requires 0.0 < radius
    ensures InDisc(Scale(radius, v), radius) <==> InDisc(v, 1.0)
  {
    var n := v.x * v.x + v.y * v.y;
    var q := radius * radius;
    ScaledSquares(radius, v.x, v.y, radius * v.x, radius * v.y, q, n);
    NamedProductPositive(radius, radius, q);
    ScaledBelow(q, n);
    assert 1.0 * 1.0 == 1.0;
  }

  lemma LagScales(ax: real, ay: real, v: V2, t: V2, radius: real)
    ensures LagBoth(ax, ay, Scale(radius, v), Scale(radius, t)) == Scale(radius, LagBoth(ax, ay, v, t))
  {
    LagScalesAxis(ax, v.x, t.x, radius);
    LagScalesAxis(ay, v.y, t.y, radius);
  }

  lemma LagScalesAxis(a: real, v: real, t: real, radius: real)
    ensures radius * v + a * (radius * t - radius * v) == radius * (v + a * (t - v))
  {
    assert radius * t - radius * v == radius * (t - v);
    assert a * (radius * (t - v)) == radius * (a * (t - v));
  }

  /** The lag keeps every pair of velocities of the disc inside the disc. */
  ghost predicate LagKeepsDisc(ax: real, ay: real, radius: real) {
    forall v: V2, t: V2 :: InDisc(v, radius) && InDisc(t, radius) ==> InDisc(LagBoth(ax, ay, v, t), radius)
  }

  /** The speed limit survives the lag exactly when both axes lag alike: with different time
      constants some velocity and some target within the limit have a destination beyond it. */
  lemma LagKeepsDiscExactly(ax: real, ay: real, radius: real)
    requires 0.0 < ax <= 1.0 && 0.0 < ay <= 1.0 && 0.0 < radius
    ensures LagKeepsDisc(ax, ay, radius) <==> ax == ay
  {
    hide InDisc, LagBoth;
    if ax < ay {
      var v, t := LagEscapes(ax, ay);
      EscapeAtRadius(ax, ay, v, t, radius);
    } else if ay < ax {
      var v, t := LagEscapes(ay, ax);
      var v', t' := V2(v.y, v.x), V2(t.y, t.x);
      Mirror(ay, ax, v, t);
      EscapeAtRadius(ax, ay, v', t', radius);
    } else {
      forall v: V2, t: V2 | InDisc(v, radius) && InDisc(t, radius)
        ensures InDisc(LagBoth(ax, ay, v, t), radius)
      {
        DiscConvex(v, t, ax, radius);
        EqualLagsAlong(ax, v, t);
      }
    }
  }

  lemma EqualLagsAlong(a: real, v: V2, t: V2)
    ensures LagBoth(a, a, v, t) == Along(v, t, a)
  {
  }

  lemma MirrorDisc(p: V2)
    ensures InDisc(V2(p.y, p.x), 1.0) <==> InDisc(p, 1.0)
  {
  }

  lemma MirrorLag(ax: real, ay: real, v: V2, t: V2)
    ensures var p := LagBoth(ax, ay, v, t);
            LagBoth(ay, ax, V2(v.y, v.x), V2(t.y, t.x)) == V2(p.y, p.x)
  {
    hide LagOne;
  }

  lemma Mirror(ax: real, ay: real, v: V2, t: V2)
    ensures InDisc(V2(v.y, v.x), 1.0) <==> InDisc(v, 1.0)
    ensures InDisc(V2(t.y, t.x), 1.0) <==> InDisc(t, 1.0)
    ensures InDisc(LagBoth(ay, ax, V2(v.y, v.x), V2(t.y, t.x)), 1.0) <==> InDisc(LagBoth(ax, ay, v, t), 1.0)
  {
    hide InDisc, LagBoth;
    MirrorLag(ax, ay, v, t);
    MirrorDisc(v);
    MirrorDisc(t);
    MirrorDisc(LagBoth(ax, ay, v, t));
  }

  lemma EscapeAtRadius(ax: real, ay: real, v: V2, t: V2, radius: real)
    requires 0.0 < radius && InDisc(v, 1.0) && InDisc(t, 1.0) && !InDisc(LagBoth(ax, ay, v, t), 1.0)
    ensures !LagKeepsDisc(ax, ay, radius)
  {
    hide InDisc, LagBoth, Scale;
    DiscScales(v, radius);
    DiscScales(t, radius);
    DiscScales(LagBoth(ax, ay, v, t), radius);
    LagScales(ax, ay, v, t, radius);
    assert !InDisc(LagBoth(ax, ay, Scale(radius, v), Scale(radius, t)), radius);
  }

  /** The destination of a tick is such a pair of lags. */
  lemma DestinationIsLagBoth(lag: (real, real) -> real, m: MotionModel, applied: Twist, target: Twist, dt: real)
    ensures Destination(lag, m, applied, target, dt)
         == LagBoth(Alpha(lag, m.tauVx, dt), Alpha(lag, m.tauVy, dt), V2(applied.x, applied.y), V2(target.x, target.y))
  {
    UncappedAxis(lag, applied.x, target.x, m.tauVx, dt);
    UncappedAxis(lag, applied.y, target.y, m.tauVy, dt);
  }

  // --- silence after reset ----------------------------------------------------------------------

  lemma TargetOfStill(lib: Library, m: MotionModel)
    requires lib.Valid()
    ensures Target(lib.hyp, m, STILL) == STILL
  {
    HypotIs(lib.hyp, 0.0, 0.0, 0.0);
    assert Gain(m, STILL) == STILL;
    PeakOfStill(m, |m.wheels|);
  }

  lemma {:induction false} PeakOfStill(m: MotionModel, k: nat)
    requires k <= |m.wheels|
    ensures PeakOf(m, STILL, k) == 0.0
  {
    if k > 0 {
      PeakOfStill(m, k - 1);
      assert WheelSpeed(m, m.wheels[k - 1], STILL) == 0.0;
    }
  }

  lemma StillAxis(lag: (real, real) -> real, tau: real, accelLimit: real, decelLimit: real, dt: real)
    requires 0.0 < dt
    ensures AdvanceAxis(lag, 0.0, 0.0, tau, accelLimit, decelLimit, dt) == 0.0
  {
    var limit := CapFor(0.0, 0.0, accelLimit, decelLimit);
    assert Lagged(lag, 0.0, 0.0, tau, dt) == 0.0;
    if 0.0 < limit {
      ProductPositive(limit, dt);
    }
  }

  lemma FollowStill(lib: Library, m: MotionModel, dt: real)
    requires lib.Valid() && 0.0 < dt
    ensures Follow(lib, m, STILL, STILL, dt) == STILL
  {
    HypotIs(lib.hyp, 0.0, 0.0, 0.0);
    StillAxis(lib.lag, m.tauVx, 0.0, 0.0, dt);
    StillAxis(lib.lag, m.tauVy, 0.0, 0.0, dt);
    StillAxis(lib.lag, m.tauVx, m.tractionAccelX, m.tractionDecelX, dt);
    StillAxis(lib.lag, m.tauVy, m.tractionAccelY, m.tractionDecelY, dt);
    StillAxis(lib.lag, m.tauOmega, m.maxAngularAccel, m.maxAngularAccel, dt);
    hide AdvanceAxis;
  }

  function Steps(m: MotionModel, ticks: seq<Tick>): seq<nat> {
    seq(|ticks|, i requires 0 <= i < |ticks| => DelaySteps(m.deadTime, ticks[i].dt))
  }

  function Axis(ticks: seq<Tick>, pick: Twist -> real): seq<real> {
    seq(|ticks|, i requires 0 <= i < |ticks| => pick(ticks[i].cmd))
  }

  ghost predicate PositiveTicks(ticks: seq<Tick>) {
    forall i :: 0 <= i < |ticks| ==> 0.0 < ticks[i].dt
  }

  /** The three queues of a run from reset are delay-line runs of the three command axes. */
  lemma {:induction false} RunQueues(lib: Library, m: MotionModel, ticks: seq<Tick>)
    requires PositiveTicks(ticks)
    ensures var s := Run(lib, m, RESET, ticks);
            && s.bufTangent == DelayRun(Axis(ticks, (c: Twist) => c.x), Steps(m, ticks))
            && s.bufNormal == DelayRun(Axis(ticks, (c: Twist) => c.y), Steps(m, ticks))
            && s.bufAngular == DelayRun(Axis(ticks, (c: Twist) => c.w), Steps(m, ticks))
  {
    hide DelayStep, DelaySteps, Target, Follow;
    if ticks != [] {
      var n := |ticks| - 1;
      RunQueues(lib, m, ticks[..n]);
      assert Axis(ticks, (c: Twist) => c.x)[..n] == Axis(ticks[..n], (c: Twist) => c.x);
      assert Axis(ticks, (c: Twist) => c.y)[..n] == Axis(ticks[..n], (c: Twist) => c.y);
      assert Axis(ticks, (c: Twist) => c.w)[..n] == Axis(ticks[..n], (c: Twist) => c.w);
      assert Steps(m, ticks)[..n] == Steps(m, ticks[..n]);
    }
  }

  /** The command that leaves the delay line at the last tick, if any does. */
  ghost function Emerging(m: MotionModel, ticks: seq<Tick>): Twist
    requires ticks != []
  {
    var steps := Steps(m, ticks);
    var n := |ticks| - 1;
    if Retained(steps, steps[n]) then ticks[n - steps[n]].cmd else STILL
  }

  lemma OutputsOfRun(lib: Library, m: MotionModel, ticks: seq<Tick>)
    requires ticks != [] && PositiveTicks(ticks)
    ensures var s := Run(lib, m, RESET, ticks);
            && s.bufTangent != [] && s.bufNormal != [] && s.bufAngular != []
            && Twist(s.bufTangent[0], s.bufNormal[0], s.bufAngular[0]) == Emerging(m, ticks)
  {
    hide DelayRun, DelaySteps, Run;
    RunQueues(lib, m, ticks);
    var steps := Steps(m, ticks);
    OutputIsDelayedCommand(Axis(ticks, (c: Twist) => c.x), steps);
    OutputIsDelayedCommand(Axis(ticks, (c: Twist) => c.y), steps);
    OutputIsDelayedCommand(Axis(ticks, (c: Twist) => c.w), steps);
    DelayContents(Axis(ticks, (c: Twist) => c.x), steps, 0);
    DelayContents(Axis(ticks, (c: Twist) => c.y), steps, 0);
    DelayContents(Axis(ticks, (c: Twist) => c.w), steps, 0);
  }

  lemma AdvanceFollows(lib: Library, m: MotionModel, s: Plant, dt: real)
    requires 0.0 < dt
    ensures var s' := Advance(lib, m, s, dt);
            && s'.bufTangent != [] && s'.bufNormal != [] && s'.bufAngular != []
            && s'.vel == s'.applied
               == Follow(lib, m, s.applied, Target(lib.hyp, m, Twist(s'.bufTangent[0], s'.bufNormal[0], s'.bufAngular[0])), dt)
  {
    hide DelayStep, DelaySteps, Target, Follow;
  }

  /** After a reset the body stands still until the first non-zero command comes out of the delay
      line; what the robot did before the reset plays no part. */
  lemma {:induction false} SilentUntilCommandEmerges(lib: Library, m: MotionModel, ticks: seq<Tick>)
    requires lib.Valid() && PositiveTicks(ticks)
    requires forall n :: 0 < n <= |ticks| ==> Emerging(m, ticks[..n]) == STILL
    ensures Run(lib, m, RESET, ticks).vel == STILL && Run(lib, m, RESET, ticks).applied == STILL
  {
    hide Advance, Target, Follow, Emerging, IsHypot, IsLag;
    if ticks != [] {
      var n := |ticks| - 1;
      assert ticks[..n + 1] == ticks;
      forall k | 0 < k <= n ensures Emerging(m, ticks[..n][..k]) == STILL {
        assert ticks[..n][..k] == ticks[..k];
      }
      SilentUntilCommandEmerges(lib, m, ticks[..n]);
      var before := Run(lib, m, RESET, ticks[..n]).(cmd := ticks[n].cmd);
      OutputsOfRun(lib, m, ticks);
      AdvanceFollows(lib, m, before, ticks[n].dt);
      TargetOfStill(lib, m);
      FollowStill(lib, m, ticks[n].dt);
    }
  }

  // --- the pass-through model -------------------------------------------------------------------

  /** The model loaded when the identified plant is switched off. */
  predicate PassThrough(m: MotionModel) {
    && m.tauVx == 0.0 && m.tauVy == 0.0 && m.tauOmega == 0.0 && m.deadTime == 0.0
    && m.gainVx == 1.0 && m.gainVy == 1.0 && m.gainVxFromUy == 0.0 && m.gainVyFromUx == 0.0 && m.gainOmega == 1.0
    && m.omegaDeadZone == 0.0
    && m.tractionAccelX == 0.0 && m.tractionAccelY == 0.0 && m.tractionDecelX == 0.0 && m.tractionDecelY == 0.0
    && m.maxLinearAccel == 0.0 && m.maxLinearDecel == 0.0
    && m.maxAngularVel == 0.0 && m.maxAngularAccel == 0.0 && m.maxLinearVel == 0.0 && m.wheelBudget == 0.0
  }

  /** It hands every command straight to the body, whatever the history. */
  lemma PassThroughIsIdentity(lib: Library, m: MotionModel, s: Plant, dt: real)
    requires PassThrough(m) && 0.0 < dt
    ensures Advance(lib, m, s, dt).vel == s.cmd
  {
    UndelayedStep(s.bufTangent, s.cmd.x);
    UndelayedStep(s.bufNormal, s.cmd.y);
    UndelayedStep(s.bufAngular, s.cmd.w);
    assert Gain(m, s.cmd) == s.cmd;
    assert Target(lib.hyp, m, s.cmd) == s.cmd;
    UnlaggedAxis(lib.lag, s.applied.x, s.cmd.x, 0.0, dt);
    UnlaggedAxis(lib.lag, s.applied.y, s.cmd.y, 0.0, dt);
    UnlaggedAxis(lib.lag, s.applied.w, s.cmd.w, 0.0, dt);
    hide DelayStep, AdvanceAxis, Target;
  }
}
