/** Each axis of the plant on its own over whole runs: dead time, lag and limits. */
module ActuationAxes {
  import opened RealMath
  import opened VectorLimiter
  import opened AxisLag
  import opened DelayLine
  import opened Actuation
  import opened ActuationRuns

  // --- dead time ------------------------------------------------------------------------------------------

  /** The dead time is `steps` ticks long, to the nearest tick; half a tick counts as one more. */
  ghost predicate NearestTick(deadTime: real, dt: real, steps: nat) {
    (steps as real - 0.5) * dt <= deadTime < (steps as real + 0.5) * dt
  }

  lemma DelayIsNearest(deadTime: real, dt: real, steps: nat)
    requires 0.0 < deadTime && 0.0 < dt
    ensures steps == DelaySteps(deadTime, dt) <==> NearestTick(deadTime, dt, steps)
  {
    var q := deadTime / dt;
    Quotient(deadTime, dt);
    assert DelaySteps(deadTime, dt) == (q + 0.5).Floor;
    RoundsTo(q, deadTime, dt, steps);
  }

  lemma RoundsTo(q: real, a: real, dt: real, steps: nat)
    requires 0.0 < dt && 0.0 < q && dt * q == a
    ensures steps == (q + 0.5).Floor <==> (steps as real - 0.5) * dt <= a < (steps as real + 0.5) * dt
  {
    CompareTicks(steps as real - 0.5, q, dt, a);
    CompareTicks(steps as real + 0.5, q, dt, a);
    assert steps == (q + 0.5).Floor <==> steps as real <= q + 0.5 < steps as real + 1.0;
  }

  lemma CompareTicks(n: real, q: real, dt: real, a: real)
    requires 0.0 < dt && dt * q == a
    ensures n * dt <= a <==> n <= q
  {
    if n <= q {
      ProductMonotone(n, q, dt);
    } else {
      ProductStrict(dt, q, n);
    }
  }

  ghost predicate EvenTicks(ticks: seq<Tick>, dt: real) {
    forall i :: 0 <= i < |ticks| ==> ticks[i].dt == dt
  }

  /** With ticks of one length the plant is driven by the command of as many ticks ago as the dead time is
      long, by none before that, and by the newest one without a dead time. */
  lemma DrivenAfterDeadTime(lib: Library, m: MotionModel, ticks: seq<Tick>, dt: real, steps: nat)
    requires ticks != [] && 0.0 < dt && EvenTicks(ticks, dt)
    requires if 0.0 < m.deadTime then NearestTick(m.deadTime, dt, steps) else steps == 0
    ensures var s := Run(lib, m, RESET, ticks);
            && s.bufTangent != [] && s.bufNormal != [] && s.bufAngular != []
            && Twist(s.bufTangent[0], s.bufNormal[0], s.bufAngular[0])
            == if steps < |ticks| then ticks[|ticks| - 1 - steps].cmd else STILL
  {
    if 0.0 < m.deadTime {
      DelayIsNearest(m.deadTime, dt, steps);
    }
    assert steps == DelaySteps(m.deadTime, dt);
    hide Run, DelaySteps, NearestTick, Retained;
    OutputsOfRun(lib, m, ticks);
    var all := Steps(m, ticks);
    EvenRetained(all, steps);
  }

  lemma EvenRetained(all: seq<nat>, steps: nat)
    requires forall i :: 0 <= i < |all| ==> all[i] == steps
    ensures Retained(all, steps) <==> steps < |all|
  {
  }

  // --- the lag ----------------------------------------------------------------------------------------------

  /** What the lag leaves of an error over a sequence of ticks. */
  ghost function Left(lag: (real, real) -> real, tau: real, ticks: seq<real>): real {
    if ticks == [] then 1.0
    else Left(lag, tau, ticks[..|ticks| - 1]) * (1.0 - lag(ticks[|ticks| - 1], tau))
  }

  lemma LagStep(lag: (real, real) -> real, applied: real, target: real, tau: real, dt: real)
    requires 0.0 < tau
    ensures target - AdvanceAxis(lag, applied, target, tau, 0.0, 0.0, dt) == (1.0 - lag(dt, tau)) * (target - applied)
  {
    UncappedAxis(lag, applied, target, tau, dt);
    hide AdvanceAxis;
    assert Alpha(lag, tau, dt) == lag(dt, tau);
  }

  lemma MoreLeft(e': real, e: real, e0: real, p: real, a: real)
    requires e == p * e0 && e' == a * e
    ensures e' == (p * a) * e0
  {
    assert a * (p * e0) == (p * a) * e0;
  }

  /** Without limits each tick takes the share lag(tick, tau) off the error, whatever it is. */
  lemma {:induction false} LagLeaves(lag: (real, real) -> real, applied: real, target: real, tau: real, ticks: seq<real>)
    requires 0.0 < tau
    ensures target - AxisRun(lag, applied, target, tau, 0.0, 0.0, ticks) == Left(lag, tau, ticks) * (target - applied)
  {
    hide AdvanceAxis;
    if ticks != [] {
      var n := |ticks| - 1;
      LagLeaves(lag, applied, target, tau, ticks[..n]);
      var before := AxisRun(lag, applied, target, tau, 0.0, 0.0, ticks[..n]);
      LagStep(lag, before, target, tau, ticks[n]);
      MoreLeft(target - AdvanceAxis(lag, before, target, tau, 0.0, 0.0, ticks[n]), target - before, target - applied,
               Left(lag, tau, ticks[..n]), 1.0 - lag(ticks[n], tau));
    }
  }

  /** What is left of an error after two times is what is left after their sum, as with an exponential. */
  ghost predicate Decays(lag: (real, real) -> real) {
    forall s: real, t: real, tau: real :: 0.0 < s && 0.0 < t && 0.0 < tau ==>
      1.0 - lag(s + t, tau) == (1.0 - lag(s, tau)) * (1.0 - lag(t, tau))
  }

  lemma DecaysAt(lag: (real, real) -> real, s: real, t: real, u: real, tau: real)
    requires Decays(lag) && 0.0 < s && 0.0 < t && 0.0 < tau && u == s + t
    ensures 1.0 - lag(u, tau) == (1.0 - lag(s, tau)) * (1.0 - lag(t, tau))
  {
  }

  lemma SumPositive(ticks: seq<real>)
    requires AllPositive(ticks) && ticks != []
    ensures 0.0 < Sum(ticks)
  {
    SumNonNegative(ticks[..|ticks| - 1]);
  }

  lemma {:induction false} LeftOfSum(lag: (real, real) -> real, tau: real, ticks: seq<real>)
    requires Decays(lag) && 0.0 < tau && AllPositive(ticks) && ticks != []
    ensures Left(lag, tau, ticks) == 1.0 - lag(Sum(ticks), tau)
  {
    var n := |ticks| - 1;
    hide Decays;
    if n == 0 {
      assert ticks[..0] == [];
      OneTick(lag, tau, ticks, ticks[0]);
    } else {
      LeftOfSum(lag, tau, ticks[..n]);
      SumPositive(ticks[..n]);
      DecaysAt(lag, Sum(ticks[..n]), ticks[n], Sum(ticks), tau);
    }
  }

  lemma OneTick(lag: (real, real) -> real, tau: real, ticks: seq<real>, tick: real)
    requires ticks == [tick]
    ensures Left(lag, tau, ticks) == 1.0 - lag(Sum(ticks), tau)
  {
    assert Sum(ticks[..0]) == 0.0;
    assert Sum(ticks) == tick;
    SameLag(lag, Sum(ticks), tick, tau);
    assert Left(lag, tau, ticks[..0]) == 1.0;
  }

  lemma SameLag(lag: (real, real) -> real, s: real, t: real, tau: real)
    requires s == t
    ensures lag(s, tau) == lag(t, tau)
  {
  }

  /** With an exponential lag and no limits it does not matter how time is cut into ticks. */
  lemma LagPartitionIndependence(lag: (real, real) -> real, applied: real, target: real, tau: real, ticks: seq<real>)
    requires Decays(lag) && AllPositive(ticks) && ticks != []
    ensures AxisRun(lag, applied, target, tau, 0.0, 0.0, ticks) == AdvanceAxis(lag, applied, target, tau, 0.0, 0.0, Sum(ticks))
  {
    hide Decays, AdvanceAxis;
    if 0.0 < tau {
      LagLeaves(lag, applied, target, tau, ticks);
      LeftOfSum(lag, tau, ticks);
      LagStep(lag, applied, target, tau, Sum(ticks));
      SameFactor(target - applied, Left(lag, tau, ticks), 1.0 - lag(Sum(ticks), tau));
      hide AxisRun, Left, Sum;
    } else {
      UnlaggedAxis(lag, AxisRun(lag, applied, target, tau, 0.0, 0.0, ticks[..|ticks| - 1]), target, tau, ticks[|ticks| - 1]);
      UnlaggedAxis(lag, applied, target, tau, Sum(ticks));
    }
  }

  // --- runs of the robot --------------------------------------------------------------------------------------

  function Lengths(ticks: seq<Tick>): seq<real> {
    seq(|ticks|, i requires 0 <= i < |ticks| => ticks[i].dt)
  }

  /** From tick `from` on the command u leaves the delay line. */
  ghost predicate EmergesFrom(m: MotionModel, ticks: seq<Tick>, from: nat, u: Twist) {
    forall n :: from < n <= |ticks| ==> Emerging(m, ticks[..n]) == u
  }

  lemma AxisStep(lag: (real, real) -> real, applied: real, target: real, tau: real, accel: real, decel: real,
                 ticks: seq<real>, more: seq<real>, dt: real)
    requires more == ticks + [dt]
    ensures AxisRun(lag, applied, target, tau, accel, decel, more)
         == AdvanceAxis(lag, AxisRun(lag, applied, target, tau, accel, decel, ticks), target, tau, accel, decel, dt)
  {
    hide AdvanceAxis;
    assert more[..|more| - 1] == ticks;
  }

  lemma NoTime(lag: (real, real) -> real, m: MotionModel, a: Twist, t: Twist)
    ensures AxisRun(lag, a.w, t.w, m.tauOmega, m.maxAngularAccel, m.maxAngularAccel, []) == a.w
    ensures AxisRun(lag, a.x, t.x, m.tauVx, m.tractionAccelX, m.tractionDecelX, []) == a.x
    ensures AxisRun(lag, a.y, t.y, m.tauVy, m.tractionAccelY, m.tractionDecelY, []) == a.y
  {
  }

  lemma FollowAxes(lib: Library, m: MotionModel, applied: Twist, target: Twist, dt: real)
    ensures var r := Follow(lib, m, applied, target, dt);
            && r.w == AdvanceAxis(lib.lag, applied.w, target.w, m.tauOmega, m.maxAngularAccel, m.maxAngularAccel, dt)
            && (!VectorLimited(m) ==>
                  && r.x == AdvanceAxis(lib.lag, applied.x, target.x, m.tauVx, m.tractionAccelX, m.tractionDecelX, dt)
                  && r.y == AdvanceAxis(lib.lag, applied.y, target.y, m.tauVy, m.tractionAccelY, m.tractionDecelY, dt))
  {
    hide AdvanceAxis, LimitTick;
  }

  /** While one command leaves the delay line each axis runs on its own towards that command's target, with
      its own time constant and its own limits; the translation does so if the vector limiter is off. */
  lemma {:induction false} AxesRunApart(lib: Library, m: MotionModel, ticks: seq<Tick>, from: nat, u: Twist)
    requires PositiveTicks(ticks) && from <= |ticks| && EmergesFrom(m, ticks, from, u)
    ensures var a := Run(lib, m, RESET, ticks[..from]).applied;
            var b := Run(lib, m, RESET, ticks).applied;
            var t := Target(lib.hyp, m, u);
            var time := Lengths(ticks[from..]);
            && b.w == AxisRun(lib.lag, a.w, t.w, m.tauOmega, m.maxAngularAccel, m.maxAngularAccel, time)
            && (!VectorLimited(m) ==>
                  && b.x == AxisRun(lib.lag, a.x, t.x, m.tauVx, m.tractionAccelX, m.tractionDecelX, time)
                  && b.y == AxisRun(lib.lag, a.y, t.y, m.tauVy, m.tractionAccelY, m.tractionDecelY, time))
  {
    hide Advance, Target, Follow, Emerging, AdvanceAxis, AxisRun;
    if from == |ticks| {
      assert ticks[..from] == ticks && Lengths(ticks[from..]) == [];
      NoTime(lib.lag, m, Run(lib, m, RESET, ticks).applied, Target(lib.hyp, m, u));
    } else {
      var n := |ticks| - 1;
      var init := ticks[..n];
      assert init[..from] == ticks[..from] && ticks[..n + 1] == ticks;
      forall k | from < k <= n ensures Emerging(m, init[..k]) == u {
        assert init[..k] == ticks[..k];
      }
      AxesRunApart(lib, m, init, from, u);
      var before := Run(lib, m, RESET, init);
      OutputsOfRun(lib, m, ticks);
      AdvanceFollows(lib, m, before.(cmd := ticks[n].cmd), ticks[n].dt);
      FollowAxes(lib, m, before.applied, Target(lib.hyp, m, u), ticks[n].dt);
      assert Lengths(ticks[from..]) == Lengths(init[from..]) + [ticks[n].dt];
      var a, t := Run(lib, m, RESET, ticks[..from]).applied, Target(lib.hyp, m, u);
      var time, more := Lengths(init[from..]), Lengths(ticks[from..]);
      AxisStep(lib.lag, a.w, t.w, m.tauOmega, m.maxAngularAccel, m.maxAngularAccel, time, more, ticks[n].dt);
      AxisStep(lib.lag, a.x, t.x, m.tauVx, m.tractionAccelX, m.tractionDecelX, time, more, ticks[n].dt);
      AxisStep(lib.lag, a.y, t.y, m.tauVy, m.tractionAccelY, m.tractionDecelY, time, more, ticks[n].dt);
    }
  }

  /** The robot's turn reaches the target of a command that stays: at a rate `rate` that the limit allows, k
      capped ticks are enough for the whole error and n lagged ones shrink it to eps. */
  lemma TurnConverges(lib: Library, m: MotionModel, ticks: seq<Tick>, from: nat, u: Twist,
                      dt: real, a: real, rate: real, k: nat, n: nat, eps: real)
    requires lib.Valid() && PositiveTicks(ticks) && from <= |ticks| && EmergesFrom(m, ticks, from, u)
    requires 0.0 < dt && 0.0 < rate && Allows(m.maxAngularAccel, rate) && 0.0 <= eps && 0.0 < a <= 1.0
    requires LongTicks(lib.lag, m.tauOmega, Lengths(ticks[from..]), dt, a) && k + n <= |ticks| - from
    requires var e := Abs(Target(lib.hyp, m, u).w - Run(lib, m, RESET, ticks[..from]).applied.w);
             e <= k as real * (rate * dt) && Pow(1.0 - a, n) * e <= eps
    ensures Abs(Target(lib.hyp, m, u).w - Run(lib, m, RESET, ticks).applied.w) <= eps
  {
    hide *;
    AxesRunApart(lib, m, ticks, from, u);
    ValidLag(lib);
    LengthsCount(ticks[from..]);
    AxisConverges(lib.lag, Run(lib, m, RESET, ticks[..from]).applied.w, Target(lib.hyp, m, u).w, m.tauOmega,
                  m.maxAngularAccel, m.maxAngularAccel, Lengths(ticks[from..]), dt, a, rate, k, n, eps);
  }

  lemma ValidLag(lib: Library)
    requires lib.Valid()
    ensures IsLag(lib.lag)
  {
  }

  lemma LengthsCount(ticks: seq<Tick>)
    ensures |Lengths(ticks)| == |ticks|
  {
  }
}
