/** The limiter per axis and the speed limit: it keeps each axis within the limit, and the speed only
    where braking is free, or so strong against the acceleration of the other axis that no corner of
    the disc can be cut outwards. */
module ActuationPerAxis {
  import opened RealMath
  import opened VectorLimiter
  import opened AxisLag
  import opened DelayLine
  import opened Actuation
  import opened ActuationRuns
  import opened ActuationDrive

  /** Braking on one axis in a tick against accelerating on the other: there is no limit on braking,
      or it stops from the speed limit v in one tick, or the other axis gains so little in a tick that
      the step (-decel dt, accel dt) leads from (decel dt, .) on the circle no further out. */
  predicate Covers(v: real, decel: real, accel: real, dt: real) {
    || decel <= 0.0
    || v <= decel * dt
    || (0.0 < accel && accel * dt <= v && (accel * dt) * (2.0 * v - accel * dt) <= (decel * dt) * (decel * dt))
  }

  /** No limit on braking is felt at the edge of the disc in a tick of this length. */
  predicate BrakesSafely(m: MotionModel, dt: real) {
    && Covers(m.maxLinearVel, m.tractionDecelX, m.tractionAccelY, dt)
    && Covers(m.maxLinearVel, m.tractionDecelY, m.tractionAccelX, dt)
  }

  // --- where the limiter keeps the disc -----------------------------------------------------------------

  lemma BrakeBound(x: real, next: real, decel: real, dt: real)
    requires 0.0 < dt && Abs(next) <= Abs(x)
    ensures var r := Capped(x, next, decel, dt);
            && Abs(r) <= Abs(x)
            && (Abs(r) <= Abs(next) || (0.0 < decel && decel * dt < Abs(x) && Abs(r) == Abs(x) - decel * dt))
  {
    if 0.0 < decel {
      ProductPositive(decel, dt);
    }
  }

  lemma SpeedUpBound(x: real, next: real, accel: real, dt: real)
    requires 0.0 < dt && Abs(x) < Abs(next)
    ensures var r := Capped(x, next, accel, dt);
            Abs(r) <= Abs(next) && (0.0 < accel ==> Abs(r) <= Abs(x) + accel * dt)
  {
    if 0.0 < accel {
      ProductPositive(accel, dt);
    }
  }

  /** What one axis does towards `next`: it stays within the magnitude of where it leads, or it brakes by
      the limit from further out. */
  ghost predicate AxisStep(x: real, next: real, accel: real, decel: real, dt: real, r: real) {
    if Abs(next) > Abs(x) then
      Abs(r) <= Abs(next) && (0.0 < accel ==> Abs(r) <= Abs(x) + accel * dt)
    else
      Abs(r) <= Abs(x) && (Abs(r) <= Abs(next) || (0.0 < decel && decel * dt < Abs(x) && Abs(r) == Abs(x) - decel * dt))
  }

  lemma AxisSteps(x: real, next: real, accel: real, decel: real, dt: real)
    requires 0.0 < dt
    ensures AxisStep(x, next, accel, decel, dt, Capped(x, next, CapFor(x, next, accel, decel), dt))
  {
    hide Capped;
    if Abs(next) > Abs(x) {
      SpeedUpBound(x, next, accel, dt);
    } else {
      BrakeBound(x, next, decel, dt);
    }
  }

  lemma SquareUpTo(a: real, b: real, p: real, q: real)
    requires Abs(a) <= Abs(b) && p == a * a && q == b * b
    ensures p <= q
  {
    AbsSquare(a);
    AbsSquare(b);
    AbsNonNegative(a);
    hide Abs;
    ProductMonotone(Abs(a), Abs(b), Abs(a));
    ProductMonotone(Abs(a), Abs(b), Abs(b));
  }

  lemma SmallerInDisc(p: V2, q: V2, radius: real)
    requires Abs(p.x) <= Abs(q.x) && Abs(p.y) <= Abs(q.y) && InDisc(q, radius)
    ensures InDisc(p, radius)
  {
    SquareUpTo(p.x, q.x, p.x * p.x, q.x * q.x);
    SquareUpTo(p.y, q.y, p.y * p.y, q.y * q.y);
  }

  /** The corner cut: one magnitude falls by d, the other rises by at most a. */
  lemma CornerCut(v: real, x: real, y: real, d: real, a: real, r: real)
    requires 0.0 <= y && 0.0 < a <= v && 0.0 < d && r == x - d && 0.0 <= r
    requires x * x + y * y <= v * v && a * (2.0 * v - a) <= d * d
    ensures r * r + (y + a) * (y + a) <= v * v
  {
    var c := v - a;
    NamedProductNonNegative(d, r, d * r);
    assert x * x == d * d + 2.0 * (d * r) + r * r;
    assert c * c == v * v - a * (2.0 * v - a);
    SquareNonNegative(r);
    SquareMonotone(y, c);
    NamedProductNonNegative(a, c - y, a * (c - y));
    assert (y + a) * (y + a) == y * y + 2.0 * (y * a) + a * a;
    assert v * v - 2.0 * (a * (c - y)) == c * c + 2.0 * (y * a) + a * a;
  }

  /** One axis brakes by its limit, the other speeds up. */
  lemma CutKeepsDisc(v: real, p: V2, r: V2, next: V2, decel: real, accel: real, dt: real)
    requires 0.0 < dt && 0.0 < v && InDisc(p, v) && InDisc(next, v) && Covers(v, decel, accel, dt)
    requires 0.0 < decel && decel * dt < Abs(p.x) && Abs(r.x) == Abs(p.x) - decel * dt
    requires Abs(r.y) <= Abs(next.y) && (0.0 < accel ==> Abs(r.y) <= Abs(p.y) + accel * dt)
    ensures InDisc(r, v)
  {
    hide *;
    var d, a := decel * dt, accel * dt;
    DiscInBox(p, v);
    CutNumbers(v, decel, accel, dt, d, a);
    AbsNonNegative(p.y);
    AbsNonNegative(r.x);
    MagnitudesInDisc(p, v);
    CornerCut(v, Abs(p.x), Abs(p.y), d, a, Abs(r.x));
    CornerIn(v, r, Abs(r.x), Abs(p.y) + a);
  }

  lemma CutNumbers(v: real, decel: real, accel: real, dt: real, d: real, a: real)
    requires 0.0 < dt && 0.0 < decel && Covers(v, decel, accel, dt) && d == decel * dt && a == accel * dt && d < v
    ensures 0.0 < d && 0.0 < accel && 0.0 < a <= v && a * (2.0 * v - a) <= d * d
  {
    NamedProductPositive(decel, dt, d);
    assert 0.0 < accel;
    NamedProductPositive(accel, dt, a);
  }

  lemma MagnitudesInDisc(p: V2, v: real)
    requires InDisc(p, v)
    ensures Abs(p.x) * Abs(p.x) + Abs(p.y) * Abs(p.y) <= v * v
  {
    AbsSquare(p.x);
    AbsSquare(p.y);
    hide Abs;
  }

  lemma CornerIn(v: real, r: V2, x: real, y: real)
    requires Abs(r.x) == x && Abs(r.y) <= y && x * x + y * y <= v * v
    ensures InDisc(r, v)
  {
    AbsNonNegative(r.y);
    AbsSquare(r.x);
    assert Abs(y) == y;
    SquareUpTo(r.y, y, r.y * r.y, y * y);
  }

  lemma MirrorInDisc(p: V2, v: real)
    ensures InDisc(V2(p.y, p.x), v) <==> InDisc(p, v)
  {
  }

  lemma StepsKeepDisc(v: real, p: V2, next: V2, r: V2, accelX: real, decelX: real, accelY: real, decelY: real, dt: real)
    requires 0.0 < dt && 0.0 < v && InDisc(p, v) && InDisc(next, v)
    requires Covers(v, decelX, accelY, dt) && Covers(v, decelY, accelX, dt)
    requires AxisStep(p.x, next.x, accelX, decelX, dt, r.x) && AxisStep(p.y, next.y, accelY, decelY, dt, r.y)
    ensures InDisc(r, v)
  {
    hide Covers, InDisc, Abs;
    if Abs(r.x) <= Abs(next.x) && Abs(r.y) <= Abs(next.y) {
      SmallerInDisc(r, next, v);
    } else if Abs(r.x) <= Abs(p.x) && Abs(r.y) <= Abs(p.y) {
      SmallerInDisc(r, p, v);
    } else if Abs(next.x) <= Abs(p.x) {
      CutKeepsDisc(v, p, r, next, decelX, accelY, dt);
    } else {
      MirrorInDisc(p, v);
      MirrorInDisc(next, v);
      MirrorInDisc(r, v);
      CutKeepsDisc(v, V2(p.y, p.x), V2(r.y, r.x), V2(next.y, next.x), decelY, accelX, dt);
    }
  }

  lemma PerAxisIs(lib: Library, m: MotionModel, applied: Twist, target: Twist, dt: real)
    requires !VectorLimited(m)
    ensures Translation(Follow(lib, m, applied, target, dt))
         == V2(AdvanceAxis(lib.lag, applied.x, target.x, m.tauVx, m.tractionAccelX, m.tractionDecelX, dt),
               AdvanceAxis(lib.lag, applied.y, target.y, m.tauVy, m.tractionAccelY, m.tractionDecelY, dt))
  {
    hide AdvanceAxis;
  }

  lemma AdvanceIsStep(lag: (real, real) -> real, applied: real, target: real, tau: real, accel: real, decel: real, dt: real)
    requires 0.0 < dt
    ensures AxisStep(applied, Lagged(lag, applied, target, tau, dt), accel, decel, dt, AdvanceAxis(lag, applied, target, tau, accel, decel, dt))
  {
    AxisSteps(applied, Lagged(lag, applied, target, tau, dt), accel, decel, dt);
    hide Lagged, Capped, CapFor, AxisStep;
  }

  /** With equal lags and safe braking a tick leads nowhere out of the disc. */
  lemma SafeBrakingKeepsDisc(lib: Library, m: MotionModel, dt: real)
    requires lib.Valid() && !VectorLimited(m) && 0.0 < m.maxLinearVel && 0.0 < dt
    requires EqualLags(lib.lag, m, dt) && BrakesSafely(m, dt)
    ensures TickKeepsDisc(lib, m, dt, m.maxLinearVel)
  {
    var v := m.maxLinearVel;
    AlphaRange(lib.lag, m.tauVx, dt);
    hide InDisc, Follow, IsHypot, IsLag, Alpha, AdvanceAxis, AxisStep, Covers, Along;
    forall applied: Twist, target: Twist | InDisc(V2(applied.x, applied.y), v) && InDisc(V2(target.x, target.y), v)
      ensures var r := Follow(lib, m, applied, target, dt); InDisc(V2(r.x, r.y), v)
    {
      var p, t := Translation(applied), Translation(target);
      var next := Along(p, t, Alpha(lib.lag, m.tauVx, dt));
      DiscConvex(p, t, Alpha(lib.lag, m.tauVx, dt), v);
      LaggedAlong(lib.lag, m, p, t, dt);
      PerAxisIs(lib, m, applied, target, dt);
      AdvanceIsStep(lib.lag, p.x, t.x, m.tauVx, m.tractionAccelX, m.tractionDecelX, dt);
      AdvanceIsStep(lib.lag, p.y, t.y, m.tauVy, m.tractionAccelY, m.tractionDecelY, dt);
      hide Lagged;
      StepsKeepDisc(v, p, next, Translation(Follow(lib, m, applied, target, dt)),
                    m.tractionAccelX, m.tractionDecelX, m.tractionAccelY, m.tractionDecelY, dt);
    }
  }

  lemma LaggedAlong(lag: (real, real) -> real, m: MotionModel, p: V2, t: V2, dt: real)
    requires EqualLags(lag, m, dt)
    ensures Along(p, t, Alpha(lag, m.tauVx, dt)) == V2(Lagged(lag, p.x, t.x, m.tauVx, dt), Lagged(lag, p.y, t.y, m.tauVy, dt))
  {
    hide Alpha;
    SameFactor(t.y - p.y, Alpha(lag, m.tauVx, dt), Alpha(lag, m.tauVy, dt));
  }

  /** From reset, over any commands and any ticks in which both axes lag alike and brake safely, the
      limiter per axis never lets the speed exceed its limit. */
  lemma SafeBrakingKeepsLimit(lib: Library, m: MotionModel, ticks: seq<Tick>)
    requires lib.Valid() && !VectorLimited(m) && 0.0 < m.maxLinearVel
    requires forall i :: 0 <= i < |ticks| && 0.0 < ticks[i].dt ==> EqualLags(lib.lag, m, ticks[i].dt) && BrakesSafely(m, ticks[i].dt)
    ensures WithinLimit(lib, m, ticks)
  {
    hide Run, TickKeepsDisc, IsHypot, IsLag, EqualLags, BrakesSafely;
    forall i | 0 <= i < |ticks| && 0.0 < ticks[i].dt ensures TickKeepsDisc(lib, m, ticks[i].dt, m.maxLinearVel) {
      SafeBrakingKeepsDisc(lib, m, ticks[i].dt);
    }
    RunKeepsLimit(lib, m, ticks);
  }

  // --- where it does not ------------------------------------------------------------------------------------

  /** A point of the disc from which the corner is cut outwards, by braking from x to more than 0 while
      the other axis goes from y up to the limit. */
  lemma CutPoint(v: real, d: real, b: real, w: real, e: real)
    requires 0.0 < d < v && w == b * (2.0 * v - b) && d * d < w && (2.0 * v) * e == w - d * d
    ensures 0.0 < e && (d + e) * (d + e) + (v - b) * (v - b) <= v * v
  {
    SquareNonNegative(v - b);
    assert (v - b) * (v - b) == v * v - w;
    if e <= 0.0 {
      ProductMonotone(e, 0.0, 2.0 * v);
    }
    ProductMonotone(d, v, v - d);
    assert v * v - d * d == v * (v - d) + d * (v - d);
    assert (2.0 * v) * (v - d) == v * (v - d) + v * (v - d);
    Cancel(2.0 * v, e, v - d);
    ProductMonotone(2.0 * d + e, 2.0 * v, e);
    assert (d + e) * (d + e) == d * d + (2.0 * d + e) * e;
  }

  lemma BrakedTo(x: real, accel: real, decel: real, dt: real, d: real)
    requires 0.0 < decel && d == decel * dt && 0.0 <= d < x
    ensures Capped(x, 0.0, CapFor(x, 0.0, accel, decel), dt) == x - d
  {
  }

  lemma SpedUpTo(y: real, v: real, accel: real, decel: real, dt: real)
    requires 0.0 <= y < v && (0.0 < accel ==> v - y <= accel * dt)
    ensures Capped(y, v, CapFor(y, v, accel, decel), dt) == v
  {
  }

  ghost predicate CutsOut(v: real, p: V2, decel: real, accel: real, dt: real) {
    && 0.0 < v && InDisc(p, v) && 0.0 < decel && 0.0 < decel * dt < p.x && 0.0 <= p.y < v
    && (0.0 < accel ==> v - p.y <= accel * dt)
  }

  lemma SomeCut(v: real, decel: real, accel: real, dt: real) returns (p: V2)
    requires 0.0 < v && 0.0 < dt && !Covers(v, decel, accel, dt)
    ensures CutsOut(v, p, decel, accel, dt)
  {
    var d, b := NotCovered(v, decel, accel, dt);
    hide Covers;
    var w := b * (2.0 * v - b);
    var e := (w - d * d) / (2.0 * v);
    Divides(w - d * d, 2.0 * v);
    CutPoint(v, d, b, w, e);
    p := V2(d + e, v - b);
  }

  /** How far one axis brakes, and the other speeds up at most. */
  lemma NotCovered(v: real, decel: real, accel: real, dt: real) returns (d: real, b: real)
    requires 0.0 < v && 0.0 < dt && !Covers(v, decel, accel, dt)
    ensures 0.0 < decel && d == decel * dt && 0.0 < d < v && 0.0 < b <= v && (0.0 < accel ==> b <= accel * dt)
    ensures d * d < b * (2.0 * v - b)
  {
    d := decel * dt;
    var a := accel * dt;
    b := if accel <= 0.0 || v < a then v else a;
    NamedProductPositive(decel, dt, d);
    if 0.0 < accel {
      NamedProductPositive(accel, dt, a);
    }
    if b == v {
      WholeDisc(v, d, b);
    }
  }

  lemma WholeDisc(v: real, d: real, b: real)
    requires 0.0 < d < v && b == v
    ensures d * d < b * (2.0 * v - b)
  {
    ProductStrict(d, d, v);
    ProductStrict(v, d, v);
    assert d * v == v * d;
  }

  /** Where the last tick of a cut ends is outside. */
  lemma CutEndsOutside(v: real, x: real, d: real)
    requires 0.0 < v && 0.0 < d < x
    ensures !InDisc(V2(x - d, v), v) && !InDisc(V2(v, x - d), v) && InDisc(V2(0.0, v), v) && InDisc(V2(v, 0.0), v)
  {
    var e := x - d;
    NamedProductPositive(e, e, e * e);
  }

  // --- holding a target until it is reached -----------------------------------------------------------------

  function Equal(dt: real, n: nat): seq<real> {
    seq(n, _ => dt)
  }

  lemma {:induction false} HeldAxes(lib: Library, m: MotionModel, p: V2, dt: real, n: nat)
    requires !VectorLimited(m)
    ensures Translation(FollowAll(lib, m, Repeat(p, n), dt))
         == V2(AxisRun(lib.lag, 0.0, p.x, m.tauVx, m.tractionAccelX, m.tractionDecelX, Equal(dt, n)),
               AxisRun(lib.lag, 0.0, p.y, m.tauVy, m.tractionAccelY, m.tractionDecelY, Equal(dt, n)))
  {
    hide Follow, AdvanceAxis, VectorLimited;
    if n > 0 {
      HeldAxes(lib, m, p, dt, n - 1);
      assert Repeat(p, n)[..n - 1] == Repeat(p, n - 1) && Equal(dt, n)[..n - 1] == Equal(dt, n - 1);
      PerAxisIs(lib, m, FollowAll(lib, m, Repeat(p, n - 1), dt), Moving(p), dt);
    }
  }

  /** A positive rate that both limits allow. */
  function SomeRate(accel: real, decel: real): (m: real)
    ensures 0.0 < m && Allows(accel, m) && Allows(decel, m)
  {
    if accel <= 0.0 then (if decel <= 0.0 then 1.0 else decel)
    else if decel <= 0.0 then accel
    else Min(accel, decel)
  }

  /** Ticks after which an axis without lag has arrived from standing still. */
  function ArrivalTicks(target: real, rate: real, dt: real): nat
    requires 0.0 < rate && 0.0 < dt
  {
    ProductPositive(rate, dt);
    AbsNonNegative(target);
    Quotient(Abs(target), rate * dt);
    (Abs(target) / (rate * dt)).Floor + 2
  }

  lemma ArrivalCovers(target: real, rate: real, dt: real, step: real, k: nat)
    requires 0.0 < rate && 0.0 < dt && step == rate * dt && k == ArrivalTicks(target, rate, dt) - 1
    ensures Abs(target - 0.0) <= k as real * step
  {
    ProductPositive(rate, dt);
    AbsNonNegative(target);
    var q := Abs(target) / step;
    Quotient(Abs(target), step);
    hide Abs;
    ProductMonotone(q, k as real, step);
  }

  lemma AxisArrives(lag: (real, real) -> real, target: real, tau: real, accel: real, decel: real, dt: real, n: nat)
    requires IsLag(lag) && tau <= 0.0 && 0.0 < dt && ArrivalTicks(target, SomeRate(accel, decel), dt) <= n
    ensures AxisRun(lag, 0.0, target, tau, accel, decel, Equal(dt, n)) == target
  {
    var rate := SomeRate(accel, decel);
    var k := ArrivalTicks(target, rate, dt) - 1;
    ArrivalCovers(target, rate, dt, rate * dt, k);
    NoneLeft(Abs(target - 0.0));
    hide ArrivalTicks, SomeRate, AxisRun, IsLag, Pow;
    AxisConverges(lag, 0.0, target, tau, accel, decel, Equal(dt, n), dt, 1.0, rate, k, 1, 0.0);
  }

  lemma NoneLeft(e: real)
    ensures Pow(1.0 - 1.0, 1) * e == 0.0
  {
    assert Pow(1.0 - 1.0, 1) == 0.0;
  }

  /** A target held long enough is reached exactly. */
  lemma HoldArrives(lib: Library, m: MotionModel, p: V2, dt: real) returns (n: nat)
    requires lib.Valid() && !VectorLimited(m) && m.tauVx <= 0.0 && m.tauVy <= 0.0 && 0.0 < dt
    ensures Translation(FollowAll(lib, m, Repeat(p, n), dt)) == p
  {
    hide FollowAll, AxisRun, ArrivalTicks, SomeRate, VectorLimited, IsLag, IsHypot;
    n := ArrivalTicks(p.x, SomeRate(m.tractionAccelX, m.tractionDecelX), dt)
       + ArrivalTicks(p.y, SomeRate(m.tractionAccelY, m.tractionDecelY), dt);
    HeldAxes(lib, m, p, dt, n);
    AxisArrives(lib.lag, p.x, m.tauVx, m.tractionAccelX, m.tractionDecelX, dt, n);
    AxisArrives(lib.lag, p.y, m.tauVy, m.tractionAccelY, m.tractionDecelY, dt, n);
  }

  /** Without lag the last tick goes to q as far as the limits allow. */
  lemma HoldThen(lib: Library, m: MotionModel, p: V2, q: V2, dt: real) returns (targets: seq<V2>)
    requires lib.Valid() && !VectorLimited(m) && m.tauVx <= 0.0 && m.tauVy <= 0.0 && 0.0 < dt
    requires InDisc(p, m.maxLinearVel) && InDisc(q, m.maxLinearVel)
    ensures AllInDisc(targets, m.maxLinearVel)
    ensures Translation(FollowAll(lib, m, targets, dt))
         == V2(Capped(p.x, q.x, CapFor(p.x, q.x, m.tractionAccelX, m.tractionDecelX), dt),
               Capped(p.y, q.y, CapFor(p.y, q.y, m.tractionAccelY, m.tractionDecelY), dt))
  {
    hide InDisc, FollowAll, Follow, AdvanceAxis, Capped, CapFor, VectorLimited, IsLag, IsHypot, Lagged;
    var n := HoldArrives(lib, m, p, dt);
    targets := Repeat(p, n) + [q];
    FollowLast(lib, m, Repeat(p, n), q, dt);
    PerAxisIs(lib, m, FollowAll(lib, m, Repeat(p, n), dt), Moving(q), dt);
    AtOnce(lib.lag, p.x, q.x, m.tauVx, m.tractionAccelX, m.tractionDecelX, dt);
    AtOnce(lib.lag, p.y, q.y, m.tauVy, m.tractionAccelY, m.tractionDecelY, dt);
  }

  lemma AtOnce(lag: (real, real) -> real, applied: real, target: real, tau: real, accel: real, decel: real, dt: real)
    requires tau <= 0.0
    ensures AdvanceAxis(lag, applied, target, tau, accel, decel, dt) == Capped(applied, target, CapFor(applied, target, accel, decel), dt)
  {
    UnlaggedAxis(lag, applied, target, tau, dt);
    hide Lagged, Capped, CapFor;
  }

  lemma CutX(lib: Library, m: MotionModel, p: V2, dt: real)
    requires lib.Valid() && Steerable(m) && !VectorLimited(m) && m.tauVx <= 0.0 && m.tauVy <= 0.0 && 0.0 < dt
    requires CutsOut(m.maxLinearVel, p, m.tractionDecelX, m.tractionAccelY, dt)
    ensures exists ticks :: OfLength(ticks, dt) && !WithinLimit(lib, m, ticks)
  {
    var v := m.maxLinearVel;
    hide InDisc, FollowAll, Capped, CapFor, Steerable, VectorLimited, IsLag, IsHypot, AllInDisc, WithinLimit;
    CutEndsOutside(v, p.x, m.tractionDecelX * dt);
    BrakedTo(p.x, m.tractionAccelX, m.tractionDecelX, dt, m.tractionDecelX * dt);
    SpedUpTo(p.y, v, m.tractionAccelY, m.tractionDecelY, dt);
    var targets := HoldThen(lib, m, p, V2(0.0, v), dt);
    DriveEscapes(lib, m, targets, dt);
  }

  lemma CutY(lib: Library, m: MotionModel, p: V2, dt: real)
    requires lib.Valid() && Steerable(m) && !VectorLimited(m) && m.tauVx <= 0.0 && m.tauVy <= 0.0 && 0.0 < dt
    requires CutsOut(m.maxLinearVel, p, m.tractionDecelY, m.tractionAccelX, dt)
    ensures exists ticks :: OfLength(ticks, dt) && !WithinLimit(lib, m, ticks)
  {
    var v := m.maxLinearVel;
    hide InDisc, FollowAll, Capped, CapFor, Steerable, VectorLimited, IsLag, IsHypot, AllInDisc, WithinLimit;
    MirrorInDisc(p, v);
    CutEndsOutside(v, p.x, m.tractionDecelY * dt);
    BrakedTo(p.x, m.tractionAccelY, m.tractionDecelY, dt, m.tractionDecelY * dt);
    SpedUpTo(p.y, v, m.tractionAccelX, m.tractionDecelX, dt);
    var targets := HoldThen(lib, m, V2(p.y, p.x), V2(v, 0.0), dt);
    DriveEscapes(lib, m, targets, dt);
  }

  lemma UnsafeBrakingEscapes(lib: Library, m: MotionModel, dt: real)
    requires lib.Valid() && Steerable(m) && !VectorLimited(m) && m.tauVx <= 0.0 && m.tauVy <= 0.0 && 0.0 < dt
    requires !BrakesSafely(m, dt)
    ensures exists ticks :: OfLength(ticks, dt) && !WithinLimit(lib, m, ticks)
  {
    hide Steerable, Covers, CutsOut, IsLag, IsHypot, WithinLimit, VectorLimited;
    SteerableGains(m);
    if !Covers(m.maxLinearVel, m.tractionDecelX, m.tractionAccelY, dt) {
      var p := SomeCut(m.maxLinearVel, m.tractionDecelX, m.tractionAccelY, dt);
      CutX(lib, m, p, dt);
    } else {
      var p := SomeCut(m.maxLinearVel, m.tractionDecelY, m.tractionAccelX, dt);
      CutY(lib, m, p, dt);
    }
  }

  lemma NoLagIsEqual(lag: (real, real) -> real, m: MotionModel, dt: real)
    requires m.tauVx <= 0.0 && m.tauVy <= 0.0
    ensures EqualLags(lag, m, dt)
  {
  }

  /** The speed limit under the limiter per axis, exactly: without lags every run from reset in ticks of
      one length keeps it if and only if both axes brake safely in such a tick. */
  lemma PerAxisLimitExactly(lib: Library, m: MotionModel, dt: real)
    requires lib.Valid() && Steerable(m) && !VectorLimited(m) && m.tauVx <= 0.0 && m.tauVy <= 0.0 && 0.0 < dt
    ensures BrakesSafely(m, dt) <==> forall ticks :: OfLength(ticks, dt) ==> WithinLimit(lib, m, ticks)
  {
    SteerableGains(m);
    hide Steerable, IsLag, IsHypot, WithinLimit, VectorLimited, BrakesSafely, EqualLags;
    if BrakesSafely(m, dt) {
      NoLagIsEqual(lib.lag, m, dt);
      forall ticks | OfLength(ticks, dt) ensures WithinLimit(lib, m, ticks) {
        SafeBrakingKeepsLimit(lib, m, ticks);
      }
    } else {
      UnsafeBrakingEscapes(lib, m, dt);
    }
  }

  /** Short enough ticks feel any limit on braking. */
  lemma ShortTickIsUnsafe(v: real, decel: real, accel: real) returns (dt: real)
    requires 0.0 < v && 0.0 < decel
    ensures 0.0 < dt && !Covers(v, decel, accel, dt)
  {
    var gain := if 0.0 < accel then accel * v else 1.0;
    if 0.0 < accel {
      NamedProductPositive(accel, v, gain);
    }
    dt := ShortTick(v, decel, gain);
    if 0.0 < accel {
      GainsMore(v, decel, accel, dt, decel * dt, accel * dt);
    }
  }

  lemma ShortTick(v: real, decel: real, gain: real) returns (dt: real)
    requires 0.0 < v && 0.0 < decel && 0.0 < gain
    ensures 0.0 < dt && decel * dt < v && dt * (decel * decel) <= 0.5 * gain
  {
    var square := decel * decel;
    NamedProductPositive(decel, decel, square);
    var x, y := 0.5 * v / decel, 0.5 * gain / square;
    Quotient(0.5 * v, decel);
    Quotient(0.5 * gain, square);
    dt := Min(x, y);
    ShortOf(dt, x, decel, 0.5 * v);
    ShortOf(dt, y, square, 0.5 * gain);
  }

  lemma ShortOf(dt: real, x: real, k: real, product: real)
    requires 0.0 < k && dt <= x && k * x == product
    ensures k * dt <= product && dt * k <= product
  {
    ProductMonotone(dt, x, k);
  }

  lemma GainsMore(v: real, decel: real, accel: real, dt: real, d: real, a: real)
    requires 0.0 < v && 0.0 < accel && 0.0 < dt && d == decel * dt && a == accel * dt
    requires dt * (decel * decel) <= 0.5 * (accel * v)
    ensures a <= v ==> d * d < a * (2.0 * v - a)
  {
    NamedProductPositive(accel, dt, a);
    if v < a {
      return;
    }
    NamedProductPositive(a, v, a * v);
    ProductMonotone(dt * (decel * decel), 0.5 * (accel * v), dt);
    assert d * d == dt * (decel * decel) * dt;
    assert 0.5 * (accel * v) * dt == 0.5 * (a * v);
    ProductMonotone(v, 2.0 * v - a, a);
    assert (2.0 * v - a) * a == a * (2.0 * v - a) && v * a == a * v;
  }

  /** Over all runs: without lags the limiter per axis keeps the speed limit if and only if it does not
      limit braking on either axis. */
  lemma PerAxisLimitNeedsFreeBraking(lib: Library, m: MotionModel)
    requires lib.Valid() && Steerable(m) && !VectorLimited(m) && m.tauVx <= 0.0 && m.tauVy <= 0.0
    ensures m.tractionDecelX <= 0.0 && m.tractionDecelY <= 0.0 <==> forall ticks :: WithinLimit(lib, m, ticks)
  {
    SteerableGains(m);
    hide Steerable, IsLag, IsHypot, WithinLimit, VectorLimited, EqualLags;
    if m.tractionDecelX <= 0.0 && m.tractionDecelY <= 0.0 {
      forall ticks: seq<Tick> ensures WithinLimit(lib, m, ticks) {
        forall i | 0 <= i < |ticks| ensures EqualLags(lib.lag, m, ticks[i].dt) {
          NoLagIsEqual(lib.lag, m, ticks[i].dt);
        }
        SafeBrakingKeepsLimit(lib, m, ticks);
      }
    } else if 0.0 < m.tractionDecelX {
      var dt := ShortTickIsUnsafe(m.maxLinearVel, m.tractionDecelX, m.tractionAccelY);
      UnsafeBrakingEscapes(lib, m, dt);
    } else {
      var dt := ShortTickIsUnsafe(m.maxLinearVel, m.tractionDecelY, m.tractionAccelX);
      UnsafeBrakingEscapes(lib, m, dt);
    }
  }
}
