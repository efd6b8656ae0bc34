/** Runs from reset that leave the speed disc under the vector limiter, because the axes lag unequally. */
module ActuationEscapes {
  import opened RealMath
  import opened VectorLimiter
  import opened AxisLag
  import opened DelayLine
  import opened Actuation
  import opened ActuationRuns
  import opened ActuationDrive

  // --- how far a tick goes ------------------------------------------------------------------------------

  lemma BoxDiagonal(hyp: (real, real) -> real, x: real, y: real, bound: real)
    requires IsHypot(hyp) && Abs(x) <= 2.0 * bound && Abs(y) <= 2.0 * bound
    ensures hyp(x, y) <= 3.0 * bound
  {
    var b := 2.0 * bound;
    AbsSquare(x);
    AbsSquare(y);
    HypotSquare(hyp, x, y);
    hide IsHypot, Abs;
    SquareGrows(Abs(x), b, x * x, b * b);
    SquareGrows(Abs(y), b, y * y, b * b);
    SquareNonNegative(bound);
    assert b * b == 4.0 * (bound * bound) && (3.0 * bound) * (3.0 * bound) == 9.0 * (bound * bound);
    SquareMonotone(hyp(x, y), 3.0 * bound);
  }

  lemma SquareGrows(a: real, b: real, p: real, q: real)
    requires a <= b && 0.0 <= a && p == a * a && q == b * b
    ensures p <= q
  {
    ProductMonotone(a, b, a);
    ProductMonotone(a, b, b);
  }

  lemma LagMoves(a: real, v: real, p: real, z: real, bound: real)
    requires 0.0 <= a <= 1.0 && Abs(v) <= bound && Abs(p) <= bound && z == LagOne(a, v, p)
    ensures Abs(z - v) <= 2.0 * bound && Abs(z) <= bound
  {
    Blend(v, p, a);
    assert Between(v, z, p);
    hide LagOne;
  }

  /** The share of the way to its destination that every tick within the limit covers at least. */
  function LeastShare(m: MotionModel, dt: real): real
    requires 0.0 < m.maxLinearVel
  {
    Min(1.0, Min(m.maxLinearAccel, m.maxLinearDecel) * dt / (3.0 * m.maxLinearVel))
  }

  lemma ShareRange(m: MotionModel, dt: real)
    requires VectorLimited(m) && 0.0 < m.maxLinearVel && 0.0 < dt
    ensures 0.0 < LeastShare(m, dt) <= 1.0
    ensures LeastShare(m, dt) * (3.0 * m.maxLinearVel) <= Min(m.maxLinearAccel, m.maxLinearDecel) * dt
  {
    var rate := Min(m.maxLinearAccel, m.maxLinearDecel);
    assert 0.0 < rate;
    hide Min;
    NamedProductPositive(rate, dt, rate * dt);
    ShareOf(rate * dt, 3.0 * m.maxLinearVel);
  }

  lemma ShareOf(way: real, reach: real)
    requires 0.0 < way && 0.0 < reach
    ensures 0.0 < Min(1.0, way / reach) <= 1.0 && Min(1.0, way / reach) * reach <= way
  {
    var q := way / reach;
    Quotient(way, reach);
    assert q * reach == way;
    if 1.0 < q {
      ProductMonotone(1.0, q, reach);
    }
  }

  lemma FollowIs(lib: Library, m: MotionModel, applied: Twist, p: V2, dt: real)
    requires VectorLimited(m)
    ensures Translation(Follow(lib, m, applied, Moving(p), dt))
         == LimitTick(lib.hyp, Translation(applied), Destination(lib.lag, m, applied, Moving(p), dt),
                      m.maxLinearAccel, m.maxLinearDecel, dt)
  {
    hide LimitTick, Destination, AdvanceAxis;
  }

  lemma DestinationNear(lib: Library, m: MotionModel, applied: Twist, p: V2, dt: real, bound: real)
    requires lib.Valid() && 0.0 < dt && InBox(applied, bound) && InBox(Moving(p), bound)
    ensures var d := Destination(lib.lag, m, applied, Moving(p), dt);
            lib.hyp(d.x - Translation(applied).x, d.y - Translation(applied).y) <= 3.0 * bound
  {
    AlphaRange(lib.lag, m.tauVx, dt);
    AlphaRange(lib.lag, m.tauVy, dt);
    DestinationIsLagBoth(lib.lag, m, applied, Moving(p), dt);
    hide IsLag, IsHypot, Alpha, Destination, LagOne, Abs;
    var d := Destination(lib.lag, m, applied, Moving(p), dt);
    LagMoves(Alpha(lib.lag, m.tauVx, dt), applied.x, p.x, d.x, bound);
    LagMoves(Alpha(lib.lag, m.tauVy, dt), applied.y, p.y, d.y, bound);
    BoxDiagonal(lib.hyp, d.x - Translation(applied).x, d.y - Translation(applied).y, bound);
  }

  /** What is in force of a lag of a when the tick covers the share k of its way. */
  function Part(k: real, a: real): real {
    k * a
  }

  lemma AlongLag(a: real, v: real, p: real, k: real)
    ensures v + k * (LagOne(a, v, p) - v) == LagOne(Part(k, a), v, p)
  {
    assert k * (a * (p - v)) == (k * a) * (p - v);
  }

  lemma AlongLagBoth(ax: real, ay: real, v: V2, p: V2, k: real)
    ensures Along(v, LagBoth(ax, ay, v, p), k) == LagBoth(Part(k, ax), Part(k, ay), v, p)
  {
    hide LagOne, Part;
    AlongLag(ax, v.x, p.x, k);
    AlongLag(ay, v.y, p.y, k);
  }

  /** A tick that stops short goes at least the share. */
  lemma ShortTickShare(hyp: (real, real) -> real, v: V2, d: V2, r: V2, k: real, least: real, way: real, reach: real)
    requires IsHypot(hyp) && 0.0 <= k && r == Along(v, d, k) && 0.0 < reach
    requires hyp(d.x - v.x, d.y - v.y) <= reach && least * reach <= way <= hyp(r.x - v.x, r.y - v.y)
    ensures least <= k
  {
    HypotScale(hyp, k, V2(d.x - v.x, d.y - v.y), r.x - v.x, r.y - v.y);
    hide IsHypot;
    var h := hyp(d.x - v.x, d.y - v.y);
    ProductMonotone(h, reach, k);
    assert reach * k == k * reach && h * k == k * h && reach * least == least * reach;
    Cancel(reach, least, k);
  }

  lemma WholeWay(v: V2, d: V2)
    ensures Along(v, d, 1.0) == d
  {
  }

  /** The limiter goes some share of the way to a destination within reach. */
  lemma LimiterShare(hyp: (real, real) -> real, v: V2, d: V2, accel: real, decel: real, dt: real, least: real, reach: real) returns (k: real)
    requires IsHypot(hyp) && 0.0 < accel && 0.0 < decel && 0.0 < dt && 0.0 < reach
    requires hyp(d.x - v.x, d.y - v.y) <= reach && least <= 1.0 && least * reach <= Min(accel, decel) * dt
    ensures least <= k <= 1.0 && LimitTick(hyp, v, d, accel, decel, dt) == Along(v, d, k)
  {
    hide LimitTick, IsHypot, Along, Min, Max;
    TickBounds(hyp, v, d, accel, decel, dt);
    var r := LimitTick(hyp, v, d, accel, decel, dt);
    if r == d {
      k := 1.0;
      WholeWay(v, d);
    } else {
      k :| 0.0 <= k <= 1.0 && r == Along(v, d, k);
      ShortTickShare(hyp, v, d, r, k, least, Min(accel, decel) * dt, reach);
    }
  }

  /** A tick goes some share of the way that the lags lead. */
  lemma TickShare(lib: Library, m: MotionModel, applied: Twist, p: V2, dt: real) returns (k: real)
    requires lib.Valid() && VectorLimited(m) && 0.0 < m.maxLinearVel && 0.0 < dt
    requires InBox(applied, m.maxLinearVel) && InBox(Moving(p), m.maxLinearVel)
    ensures LeastShare(m, dt) <= k <= 1.0
    ensures Translation(Follow(lib, m, applied, Moving(p), dt))
         == LagBoth(Part(k, Alpha(lib.lag, m.tauVx, dt)), Part(k, Alpha(lib.lag, m.tauVy, dt)), Translation(applied), p)
  {
    hide *;
    var v := Translation(applied);
    var d := Destination(lib.lag, m, applied, Moving(p), dt);
    LimitsPositive(m);
    LibraryHypot(lib);
    var reach := 3.0 * m.maxLinearVel;
    ShareRange(m, dt);
    FollowIs(lib, m, applied, p, dt);
    DestinationIsLagBoth(lib.lag, m, applied, Moving(p), dt);
    SameTranslation(applied, p);
    DestinationNear(lib, m, applied, p, dt, m.maxLinearVel);
    k := LimiterShare(lib.hyp, v, d, m.maxLinearAccel, m.maxLinearDecel, dt, LeastShare(m, dt), reach);
    AlongLagBoth(Alpha(lib.lag, m.tauVx, dt), Alpha(lib.lag, m.tauVy, dt), v, p, k);
  }

  lemma LimitsPositive(m: MotionModel)
    requires VectorLimited(m)
    ensures 0.0 < m.maxLinearAccel && 0.0 < m.maxLinearDecel
  {
  }

  lemma LibraryHypot(lib: Library)
    requires lib.Valid()
    ensures IsHypot(lib.hyp)
  {
  }

  lemma SameTranslation(applied: Twist, p: V2)
    ensures V2(applied.x, applied.y) == Translation(applied) && V2(Moving(p).x, Moving(p).y) == p
  {
  }

  lemma {:induction false} FollowAllInBox(lib: Library, m: MotionModel, targets: seq<V2>, dt: real)
    requires lib.Valid() && 0.0 < m.maxLinearVel && 0.0 < dt && AllInDisc(targets, m.maxLinearVel)
    ensures InBox(FollowAll(lib, m, targets, dt), m.maxLinearVel)
  {
    hide InBox, Follow, InDisc, IsHypot, IsLag;
    if targets == [] {
      StillInBox(m.maxLinearVel);
    } else {
      var n := |targets| - 1;
      FollowAllInBox(lib, m, targets[..n], dt);
      MovingInBox(targets[n], m.maxLinearVel);
      FollowKeepsBox(lib, m, FollowAll(lib, m, targets[..n], dt), Moving(targets[n]), dt, m.maxLinearVel);
    }
  }

  lemma StillInBox(bound: real)
    requires 0.0 < bound
    ensures InBox(STILL, bound)
  {
  }

  lemma MovingInBox(p: V2, bound: real)
    requires 0.0 < bound && InDisc(p, bound)
    ensures InBox(Moving(p), bound)
  {
    DiscInBox(p, bound);
  }

  // --- holding a target ---------------------------------------------------------------------------------

  /** The part of a deviation that a lag of c leaves. */
  function Left(c: real): real {
    1.0 - c
  }

  lemma {:induction false} Bernoulli(c: real, n: nat)
    requires 0.0 < c <= 1.0
    ensures 0.0 <= Pow(Left(c), n) && (1.0 + n as real * c) * Pow(Left(c), n) <= 1.0
  {
    hide Pow;
    if n == 0 {
      PowZero(Left(c));
    } else {
      Bernoulli(c, n - 1);
      PowStep(Left(c), n - 1);
      BernoulliStep(c, Left(c), (n - 1) as real, Pow(Left(c), n - 1), Pow(Left(c), n));
    }
  }

  lemma PowStep(b: real, n: nat)
    ensures Pow(b, n + 1) == b * Pow(b, n)
  {
  }

  lemma BernoulliStep(c: real, left: real, k: real, q: real, r: real)
    requires 0.0 < c <= 1.0 && left == 1.0 - c && 0.0 <= k && 0.0 <= q && r == left * q && (1.0 + k * c) * q <= 1.0
    ensures 0.0 <= r && (1.0 + (k + 1.0) * c) * r <= 1.0
  {
    NamedProductNonNegative(left, q, r);
    var kc := k * c;
    NamedProductNonNegative(k, c, kc);
    NamedProductNonNegative(c, q, c * q);
    NamedProductNonNegative(c, c * q, c * (c * q));
    NamedProductNonNegative(kc, c * q, kc * (c * q));
    assert r == q - c * q;
    assert (1.0 + (k + 1.0) * c) * r == (1.0 + kc) * q - c * (c * q) - kc * (c * q);
  }

  /** From some number of ticks on the rest is below any bound. */
  lemma RestVanishes(c: real, eps: real, n: nat)
    requires 0.0 < c <= 1.0 && 0.0 < eps && 1.0 <= eps * (n as real * c)
    ensures 0.0 <= Pow(Left(c), n) <= eps
  {
    Bernoulli(c, n);
    hide Pow;
    var q := Pow(Left(c), n);
    var nc := n as real * c;
    NamedProductNonNegative(n as real, c, nc);
    assert (1.0 + nc) * q == q + nc * q;
    if q > eps {
      ProductMonotone(eps, q, nc);
      assert nc * q == q * nc;
    }
  }

  /** Enough ticks. */
  function TicksFor(c: real, eps: real): nat
    requires 0.0 < c && 0.0 < eps
  {
    NamedProductPositive(eps, c, eps * c);
    Quotient(1.0, eps * c);
    (1.0 / (eps * c)).Floor + 1
  }

  lemma TicksForAreEnough(c: real, eps: real, n: nat)
    requires 0.0 < c <= 1.0 && 0.0 < eps && TicksFor(c, eps) <= n
    ensures 0.0 <= Pow(Left(c), n) <= eps
  {
    var k := eps * c;
    NamedProductPositive(eps, c, k);
    Quotient(1.0, k);
    hide Pow;
    assert 1.0 / k <= n as real;
    ProductMonotone(1.0 / k, n as real, k);
    assert eps * (n as real * c) == n as real * k;
    RestVanishes(c, eps, n);
  }

  lemma PartOfLag(a: real, k: real, least: real)
    requires 0.0 < a <= 1.0 && 0.0 < least <= k <= 1.0
    ensures 0.0 < Part(least, a) <= Part(k, a) <= 1.0
  {
    var p, q := Part(least, a), Part(k, a);
    NamedProductPositive(least, a, p);
    NamedProductNonNegative(k - least, a, q - p);
    NamedProductNonNegative(1.0 - k, a, a - q);
  }

  /** What a lag of c leaves of a deviation d. */
  function Remains(c: real, d: real): real {
    Left(c) * d
  }

  lemma RemainsSmall(c: real, least: real, d: real, bound: real)
    requires 0.0 < least <= c <= 1.0 && Abs(d) <= bound
    ensures Abs(Remains(c, d)) <= Remains(least, bound) && Abs(Remains(c, d)) <= bound
  {
    hide Abs;
    AbsNonNegative(d);
    AbsScaled(Left(c), d, Remains(c, d));
    RemainsOrdered(Left(c), Left(least), Abs(d), bound, Abs(Remains(c, d)), Remains(least, bound));
  }

  lemma RemainsOrdered(f: real, g: real, x: real, bound: real, p: real, q: real)
    requires 0.0 <= f <= g <= 1.0 && 0.0 <= x <= bound && p == f * x && q == g * bound
    ensures p <= q && p <= bound
  {
    var r := g * x;
    NamedProductNonNegative(g - f, x, r - p);
    NamedProductNonNegative(g, bound - x, q - r);
    NamedProductNonNegative(1.0 - g, bound, bound - q);
  }

  lemma LagFrom(c: real, v: real, d: real, t: real)
    ensures LagOne(c, v - d, t) == LagOne(c, v, t) - Remains(c, d)
    ensures LagOne(c, v - d, v) == v - Remains(c, d)
  {
    var f := Left(c);
    assert Remains(c, d) == d - c * d;
    assert c * (t - (v - d)) == c * (t - v) + c * d;
    assert c * (v - (v - d)) == c * d;
  }

  lemma StartDeviation(limit: real, v: V2)
    ensures Scale(limit, Minus(v, v)) == V2(0.0, 0.0)
  {
  }

  /** One tick towards t from a point near v, in units of the limit. */
  lemma NearTick(lib: Library, m: MotionModel, targets: seq<V2>, v: V2, d: V2, t: V2, dt: real) returns (k: real)
    requires lib.Valid() && VectorLimited(m) && 0.0 < m.maxLinearVel && 0.0 < dt && AllInDisc(targets, m.maxLinearVel) && InDisc(t, 1.0)
    requires Translation(FollowAll(lib, m, targets, dt)) == Scale(m.maxLinearVel, Minus(v, d))
    ensures LeastShare(m, dt) <= k <= 1.0
    ensures Translation(Follow(lib, m, FollowAll(lib, m, targets, dt), Moving(Scale(m.maxLinearVel, t)), dt))
         == Scale(m.maxLinearVel, LagBoth(Part(k, Alpha(lib.lag, m.tauVx, dt)), Part(k, Alpha(lib.lag, m.tauVy, dt)), Minus(v, d), t))
  {
    hide *;
    var limit := m.maxLinearVel;
    FollowAllInBox(lib, m, targets, dt);
    DiscScales(t, limit);
    MovingInBox(Scale(limit, t), limit);
    k := TickShare(lib, m, FollowAll(lib, m, targets, dt), Scale(limit, t), dt);
    LagScales(Part(k, Alpha(lib.lag, m.tauVx, dt)), Part(k, Alpha(lib.lag, m.tauVy, dt)), Minus(v, d), t, limit);
  }

  /** What is left of the way to a held target shrinks on each axis by the share of its lag. */
  ghost predicate Near(lib: Library, m: MotionModel, targets: seq<V2>, v: V2, d: V2, dt: real, n: nat)
    requires 0.0 < m.maxLinearVel
  {
    && Translation(FollowAll(lib, m, targets, dt)) == Scale(m.maxLinearVel, Minus(v, d))
    && Abs(d.x) <= Pow(Left(Part(LeastShare(m, dt), Alpha(lib.lag, m.tauVx, dt))), n)
    && Abs(d.y) <= Pow(Left(Part(LeastShare(m, dt), Alpha(lib.lag, m.tauVy, dt))), n)
  }

  lemma NearStart(lib: Library, m: MotionModel, v: V2, dt: real)
    requires 0.0 < m.maxLinearVel && InDisc(v, 1.0)
    ensures Near(lib, m, Repeat(Scale(m.maxLinearVel, v), 0), v, v, dt, 0)
  {
    UnitBox(v);
    StartDeviation(m.maxLinearVel, v);
    PowZero(Left(Part(LeastShare(m, dt), Alpha(lib.lag, m.tauVx, dt))));
    PowZero(Left(Part(LeastShare(m, dt), Alpha(lib.lag, m.tauVy, dt))));
    hide Scale, Minus, InDisc, Pow, LeastShare, Alpha, Abs, Part, Left;
    assert Repeat(Scale(m.maxLinearVel, v), 0) == [];
  }

  lemma {:induction false} HoldNears(lib: Library, m: MotionModel, v: V2, dt: real, n: nat) returns (d: V2)
    requires lib.Valid() && VectorLimited(m) && 0.0 < m.maxLinearVel && 0.0 < dt && InDisc(v, 1.0)
    ensures Near(lib, m, Repeat(Scale(m.maxLinearVel, v), n), v, d, dt, n)
  {
    var p := Scale(m.maxLinearVel, v);
    hide IsHypot, IsLag, VectorLimited, FollowAll, Follow, InDisc, Scale, LeastShare, Alpha, LagBoth, Near, Pow, Repeat, Part, Left;
    if n == 0 {
      d := v;
      NearStart(lib, m, v, dt);
    } else {
      var e := HoldNears(lib, m, v, dt, n - 1);
      d := NearMore(lib, m, v, e, dt, n);
    }
  }

  lemma RepeatInDisc(p: V2, n: nat, radius: real)
    requires InDisc(p, radius)
    ensures AllInDisc(Repeat(p, n), radius)
  {
    hide InDisc;
  }

  lemma LagFromBoth(cx: real, cy: real, v: V2, d: V2, t: V2)
    ensures var l := LagBoth(cx, cy, v, t);
            LagBoth(cx, cy, Minus(v, d), t) == V2(l.x - Remains(cx, d.x), l.y - Remains(cy, d.y))
    ensures LagBoth(cx, cy, Minus(v, d), v) == Minus(v, V2(Remains(cx, d.x), Remains(cy, d.y)))
  {
    LagFrom(cx, v.x, d.x, t.x);
    LagFrom(cy, v.y, d.y, t.y);
    hide LagOne, Remains;
  }

  lemma NearMore(lib: Library, m: MotionModel, v: V2, e: V2, dt: real, n: nat) returns (d: V2)
    requires lib.Valid() && VectorLimited(m) && 0.0 < m.maxLinearVel && 0.0 < dt && InDisc(v, 1.0) && 0 < n
    requires Near(lib, m, Repeat(Scale(m.maxLinearVel, v), n - 1), v, e, dt, n - 1)
    ensures Near(lib, m, Repeat(Scale(m.maxLinearVel, v), n), v, d, dt, n)
  {
    var p := Scale(m.maxLinearVel, v);
    var ax, ay, least := Alpha(lib.lag, m.tauVx, dt), Alpha(lib.lag, m.tauVy, dt), LeastShare(m, dt);
    AlphaRange(lib.lag, m.tauVx, dt);
    AlphaRange(lib.lag, m.tauVy, dt);
    NearParts(lib, m, Repeat(p, n - 1), v, e, dt, n - 1);
    hide *;
    ShareRange(m, dt);
    DiscScales(v, m.maxLinearVel);
    RepeatInDisc(p, n - 1, m.maxLinearVel);
    var k := NearTick(lib, m, Repeat(p, n - 1), v, e, v, dt);
    RepeatMore(lib, m, p, dt, n);
    PartOfLag(ax, k, least);
    PartOfLag(ay, k, least);
    d := NearerBoth(Part(k, ax), Part(k, ay), Part(least, ax), Part(least, ay), v, e, n);
    NearFrom(lib, m, Repeat(p, n), v, d, dt, n);
  }

  lemma NearParts(lib: Library, m: MotionModel, targets: seq<V2>, v: V2, d: V2, dt: real, n: nat)
    requires 0.0 < m.maxLinearVel && Near(lib, m, targets, v, d, dt, n)
    ensures Translation(FollowAll(lib, m, targets, dt)) == Scale(m.maxLinearVel, Minus(v, d))
    ensures Abs(d.x) <= Pow(Left(Part(LeastShare(m, dt), Alpha(lib.lag, m.tauVx, dt))), n)
    ensures Abs(d.y) <= Pow(Left(Part(LeastShare(m, dt), Alpha(lib.lag, m.tauVy, dt))), n)
  {
    hide Translation, FollowAll, Scale, Minus, Abs, LeastShare, Alpha, Part, Left;
  }

  lemma NearFrom(lib: Library, m: MotionModel, targets: seq<V2>, v: V2, d: V2, dt: real, n: nat)
    requires 0.0 < m.maxLinearVel
    requires Translation(FollowAll(lib, m, targets, dt)) == Scale(m.maxLinearVel, Minus(v, d))
    requires Abs(d.x) <= Pow(Left(Part(LeastShare(m, dt), Alpha(lib.lag, m.tauVx, dt))), n)
    requires Abs(d.y) <= Pow(Left(Part(LeastShare(m, dt), Alpha(lib.lag, m.tauVy, dt))), n)
    ensures Near(lib, m, targets, v, d, dt, n)
  {
    hide Translation, FollowAll, Scale, Minus, Abs, LeastShare, Alpha, Part, Left;
  }

  /** One more lag of cx and cy. */
  lemma NearerBoth(cx: real, cy: real, leastX: real, leastY: real, v: V2, e: V2, n: nat) returns (d: V2)
    requires 0.0 < leastX <= cx <= 1.0 && 0.0 < leastY <= cy <= 1.0 && 0 < n
    requires Abs(e.x) <= Pow(Left(leastX), n - 1) && Abs(e.y) <= Pow(Left(leastY), n - 1)
    ensures LagBoth(cx, cy, Minus(v, e), v) == Minus(v, d)
    ensures Abs(d.x) <= Pow(Left(leastX), n) && Abs(d.y) <= Pow(Left(leastY), n)
  {
    hide *;
    LagFromBoth(cx, cy, v, e, v);
    d := V2(Remains(cx, e.x), Remains(cy, e.y));
    RemainsSmall(cx, leastX, e.x, Pow(Left(leastX), n - 1));
    RemainsSmall(cy, leastY, e.y, Pow(Left(leastY), n - 1));
    PowRemains(leastX, n);
    PowRemains(leastY, n);
  }

  lemma PowRemains(c: real, n: nat)
    requires 0 < n
    ensures Pow(Left(c), n) == Remains(c, Pow(Left(c), n - 1))
  {
    hide Left;
  }

  // --- the escape -------------------------------------------------------------------------------------

  lemma UnitBox(v: V2)
    requires InDisc(v, 1.0)
    ensures Abs(v.x) <= 1.0 && Abs(v.y) <= 1.0
  {
    assert 1.0 * 1.0 == 1.0;
    DiscInBox(v, 1.0);
  }

  /** A small enough deviation of the start does not bring the point back into the disc. */
  lemma StillOutside(ax: real, ay: real, v: V2, t: V2, ex: real, ey: real, eps: real)
    requires 0.0 < ax <= 1.0 && 0.0 < ay <= 1.0 && InDisc(v, 1.0) && InDisc(t, 1.0)
    requires var l := LagBoth(ax, ay, v, t); 1.0 + 4.0 * eps < Dot(l, l)
    requires Abs(ex) <= eps && Abs(ey) <= eps
    ensures var l := LagBoth(ax, ay, v, t); !InDisc(V2(l.x - ex, l.y - ey), 1.0)
  {
    var l := LagBoth(ax, ay, v, t);
    UnitBox(v);
    UnitBox(t);
    hide LagOne, Abs, InDisc, Dot;
    LagMoves(ax, v.x, t.x, l.x, 1.0);
    LagMoves(ay, v.y, t.y, l.y, 1.0);
    hide LagBoth;
    OffUnit(l, ex, ey, eps, Dot(l, l));
  }

  lemma OffUnit(l: V2, ex: real, ey: real, eps: real, n: real)
    requires Abs(l.x) <= 1.0 && Abs(l.y) <= 1.0 && Abs(ex) <= eps && Abs(ey) <= eps
    requires n == Dot(l, l) && 1.0 + 4.0 * eps < n
    ensures !InDisc(V2(l.x - ex, l.y - ey), 1.0)
  {
    hide *;
    var p := V2(l.x - ex, l.y - ey);
    DotIs(l);
    DotIs(p);
    SquareOff(l.x, ex, eps, p.x, l.x * l.x, p.x * p.x);
    SquareOff(l.y, ey, eps, p.y, l.y * l.y, p.y * p.y);
    OutsideUnit(p);
  }

  lemma DotIs(v: V2)
    ensures Dot(v, v) == v.x * v.x + v.y * v.y
  {
  }

  lemma OutsideUnit(p: V2)
    ensures 1.0 < Dot(p, p) <==> !InDisc(p, 1.0)
  {
    assert 1.0 * 1.0 == 1.0;
  }

  lemma SquareOff(l: real, e: real, eps: real, z: real, p: real, q: real)
    requires Abs(l) <= 1.0 && Abs(e) <= eps && z == l - e && p == l * l && q == z * z
    ensures p - 2.0 * eps <= q
  {
    CrossTerm(l, e, eps);
    hide Abs;
    SquareNonNegative(e);
    assert z * z == l * l - 2.0 * (l * e) + e * e;
  }

  lemma CrossTerm(l: real, e: real, eps: real)
    requires Abs(l) <= 1.0 && Abs(e) <= eps
    ensures l * e <= eps
  {
    if 0.0 <= e {
      ProductMonotone(l, 1.0, e);
    } else {
      ProductMonotone(-l, 1.0, -e);
      assert -l * -e == l * e;
    }
  }

  /** Where the lags lead from v towards t, seen from v. */
  function OutStep(ax: real, ay: real, v: V2, t: V2): V2 {
    V2(ax * (t.x - v.x), ay * (t.y - v.y))
  }

  ghost predicate Outward(ax: real, ay: real, v: V2, t: V2, g: real) {
    Dot(v, v) == 1.0 && InDisc(t, 1.0) && 0.0 < g && g == Dot(v, OutStep(ax, ay, v, t))
  }

  /** With unequal lags some target leads outwards from a point of the unit circle. */
  lemma SomeOutward(ax: real, ay: real) returns (v: V2, t: V2, g: real)
    requires 0.0 < ax <= 1.0 && 0.0 < ay <= 1.0 && ax != ay
    ensures Outward(ax, ay, v, t, g)
  {
    if ax < ay {
      var u := OutwardPoint(ax, ay);
      v, t := V2(0.6, 0.8), u;
    } else {
      var u := OutwardPoint(ay, ax);
      v, t := V2(0.8, 0.6), V2(u.y, u.x);
    }
    g := Dot(v, OutStep(ax, ay, v, t));
  }

  lemma LagBothIsStep(ax: real, ay: real, v: V2, t: V2)
    ensures LagBoth(ax, ay, v, t) == Plus(v, OutStep(ax, ay, v, t))
  {
  }

  /** Any share of an outward step leaves the disc. */
  lemma ShareOutward(ax: real, ay: real, v: V2, t: V2, g: real, k: real, least: real)
    requires Outward(ax, ay, v, t, g) && 0.0 < least <= k
    ensures var l := LagBoth(Part(k, ax), Part(k, ay), v, t);
            1.0 + 2.0 * (least * g) <= Dot(l, l)
  {
    hide LagBoth, InDisc, Part, OutStep, Along, Plus, Dot;
    AlongLagBoth(ax, ay, v, t, k);
    LagBothIsStep(ax, ay, v, t);
    StepSquare(v, OutStep(ax, ay, v, t), k, k * g);
    ProductMonotone(least, k, g);
  }

  lemma StepSquare(v: V2, step: V2, k: real, kg: real)
    requires kg == k * Dot(v, step)
    ensures var l := Along(v, Plus(v, step), k);
            Dot(v, v) + 2.0 * kg <= Dot(l, l)
  {
    AlongStep(v, step, k);
    StepSquareAxis(v.x, step.x, k);
    StepSquareAxis(v.y, step.y, k);
    SquareNonNegative(k * step.x);
    SquareNonNegative(k * step.y);
    hide Along, Plus;
    assert kg == k * (v.x * step.x) + k * (v.y * step.y);
  }

  lemma AlongStep(v: V2, step: V2, k: real)
    ensures Along(v, Plus(v, step), k) == V2(v.x + k * step.x, v.y + k * step.y)
  {
    SameFactor(k, v.x + step.x - v.x, step.x);
    SameFactor(k, v.y + step.y - v.y, step.y);
  }

  lemma StepSquareAxis(v: real, x: real, k: real)
    ensures (v + k * x) * (v + k * x) == v * v + 2.0 * (k * (v * x)) + (k * x) * (k * x)
  {
    BinomialSquare(v, k * x);
    assert v * (k * x) == k * (v * x);
  }

  lemma BinomialSquare(a: real, b: real)
    ensures (a + b) * (a + b) == a * a + 2.0 * (a * b) + b * b
  {
  }

  /** From close enough to that point every tick towards the target ends outside. */
  lemma NearIsOutside(ax: real, ay: real, v: V2, t: V2, g: real, k: real, least: real, d: V2, eps: real)
    requires 0.0 < ax <= 1.0 && 0.0 < ay <= 1.0 && Outward(ax, ay, v, t, g)
    requires 0.0 < least <= k <= 1.0 && eps == 0.25 * (least * g) && Abs(d.x) <= eps && Abs(d.y) <= eps
    ensures !InDisc(LagBoth(Part(k, ax), Part(k, ay), Minus(v, d), t), 1.0)
  {
    hide *;
    ShareOutward(ax, ay, v, t, g, k, least);
    OutwardParts(ax, ay, v, t, g);
    NamedProductPositive(least, g, least * g);
    PartOfLag(ax, k, least);
    PartOfLag(ay, k, least);
    NearLagOutside(Part(k, ax), Part(k, ay), v, t, d, eps);
  }

  lemma NearLagOutside(cx: real, cy: real, v: V2, t: V2, d: V2, eps: real)
    requires 0.0 < cx <= 1.0 && 0.0 < cy <= 1.0 && InDisc(v, 1.0) && InDisc(t, 1.0)
    requires var l := LagBoth(cx, cy, v, t); 1.0 + 4.0 * eps < Dot(l, l)
    requires Abs(d.x) <= eps && Abs(d.y) <= eps
    ensures !InDisc(LagBoth(cx, cy, Minus(v, d), t), 1.0)
  {
    hide *;
    RemainsSmall(cx, cx, d.x, eps);
    RemainsSmall(cy, cy, d.y, eps);
    LagFromBoth(cx, cy, v, d, t);
    StillOutside(cx, cy, v, t, Remains(cx, d.x), Remains(cy, d.y), eps);
  }

  /** Hold the point long enough, then give the target. */
  lemma UnequalLagsLeadOut(lib: Library, m: MotionModel, dt: real) returns (targets: seq<V2>)
    requires lib.Valid() && VectorLimited(m) && 0.0 < m.maxLinearVel && 0.0 < dt && !EqualLags(lib.lag, m, dt)
    ensures AllInDisc(targets, m.maxLinearVel)
    ensures !InDisc(Translation(FollowAll(lib, m, targets, dt)), m.maxLinearVel)
  {
    AlphaRange(lib.lag, m.tauVx, dt);
    AlphaRange(lib.lag, m.tauVy, dt);
    ShareRange(m, dt);
    hide IsHypot, IsLag, VectorLimited, FollowAll, InDisc, LeastShare, Alpha, AllInDisc, Outward, Min;
    var v, t, g := SomeOutward(Alpha(lib.lag, m.tauVx, dt), Alpha(lib.lag, m.tauVy, dt));
    targets := HoldThenOut(lib, m, v, t, g, dt);
  }

  /** How long to hold so that both deviations are below eps. */
  lemma LongEnough(cx: real, cy: real, eps: real) returns (n: nat)
    requires 0.0 < cx <= 1.0 && 0.0 < cy <= 1.0 && 0.0 < eps
    ensures Pow(Left(cx), n) <= eps && Pow(Left(cy), n) <= eps
  {
    hide Pow, TicksFor, Left;
    n := TicksFor(cx, eps) + TicksFor(cy, eps);
    TicksForAreEnough(cx, eps, n);
    TicksForAreEnough(cy, eps, n);
  }

  lemma HoldThenOut(lib: Library, m: MotionModel, v: V2, t: V2, g: real, dt: real) returns (targets: seq<V2>)
    requires lib.Valid() && VectorLimited(m) && 0.0 < m.maxLinearVel && 0.0 < dt
    requires Outward(Alpha(lib.lag, m.tauVx, dt), Alpha(lib.lag, m.tauVy, dt), v, t, g)
    ensures AllInDisc(targets, m.maxLinearVel)
    ensures !InDisc(Translation(FollowAll(lib, m, targets, dt)), m.maxLinearVel)
  {
    var ax, ay, least := Alpha(lib.lag, m.tauVx, dt), Alpha(lib.lag, m.tauVy, dt), LeastShare(m, dt);
    AlphaRange(lib.lag, m.tauVx, dt);
    AlphaRange(lib.lag, m.tauVy, dt);
    OutwardParts(ax, ay, v, t, g);
    hide *;
    ShareRange(m, dt);
    var eps := 0.25 * (least * g);
    NamedProductPositive(least, g, least * g);
    PartOfLag(ax, 1.0, least);
    PartOfLag(ay, 1.0, least);
    var n := LongEnough(Part(least, ax), Part(least, ay), eps);
    var d := HoldNears(lib, m, v, dt, n);
    var p, q := Scale(m.maxLinearVel, v), Scale(m.maxLinearVel, t);
    NearParts(lib, m, Repeat(p, n), v, d, dt, n);
    DiscScales(v, m.maxLinearVel);
    DiscScales(t, m.maxLinearVel);
    RepeatInDisc(p, n, m.maxLinearVel);
    var k := NearTick(lib, m, Repeat(p, n), v, d, t, dt);
    targets := Repeat(p, n) + [q];
    FollowLast(lib, m, Repeat(p, n), q, dt);
    OneMoreInDisc(Repeat(p, n), q, m.maxLinearVel);
    NearIsOutside(ax, ay, v, t, g, k, least, d, eps);
    DiscScales(LagBoth(Part(k, ax), Part(k, ay), Minus(v, d), t), m.maxLinearVel);
  }

  lemma OutwardParts(ax: real, ay: real, v: V2, t: V2, g: real)
    requires Outward(ax, ay, v, t, g)
    ensures InDisc(v, 1.0) && InDisc(t, 1.0) && 0.0 < g
  {
    assert 1.0 * 1.0 == 1.0;
  }

  lemma OneMoreInDisc(targets: seq<V2>, q: V2, radius: real)
    requires AllInDisc(targets, radius) && InDisc(q, radius)
    ensures AllInDisc(targets + [q], radius)
  {
    hide InDisc;
  }

  lemma UnequalLagsEscape(lib: Library, m: MotionModel, dt: real)
    requires lib.Valid() && Steerable(m) && VectorLimited(m) && 0.0 < dt && !EqualLags(lib.lag, m, dt)
    ensures exists ticks :: OfLength(ticks, dt) && !WithinLimit(lib, m, ticks)
  {
    SteerableGains(m);
    hide Steerable, IsHypot, IsLag, FollowAll, InDisc, AllInDisc, WithinLimit, EqualLags;
    var targets := UnequalLagsLeadOut(lib, m, dt);
    DriveEscapes(lib, m, targets, dt);
  }

  /** The speed limit under the vector limiter, exactly: every run from reset in ticks of one length
      keeps it if and only if both axes lag alike in such a tick. */
  lemma SpeedLimitHoldsExactlyWithEqualLags(lib: Library, m: MotionModel, dt: real)
    requires lib.Valid() && Steerable(m) && VectorLimited(m) && 0.0 < dt
    ensures EqualLags(lib.lag, m, dt) <==> forall ticks :: OfLength(ticks, dt) ==> WithinLimit(lib, m, ticks)
  {
    SteerableGains(m);
    hide Run, IsHypot, IsLag, EqualLags, Steerable;
    if EqualLags(lib.lag, m, dt) {
      forall ticks | OfLength(ticks, dt) ensures WithinLimit(lib, m, ticks) {
        SpeedNeverExceedsLimit(lib, m, ticks);
      }
    } else {
      UnequalLagsEscape(lib, m, dt);
    }
  }

  /** The same over ticks of all lengths. */
  lemma SpeedLimitOverAllTicks(lib: Library, m: MotionModel)
    requires lib.Valid() && Steerable(m) && VectorLimited(m)
    ensures (forall dt :: 0.0 < dt ==> EqualLags(lib.lag, m, dt)) <==> forall ticks :: WithinLimit(lib, m, ticks)
  {
    SteerableGains(m);
    hide Run, IsHypot, IsLag, EqualLags, Steerable, OfLength;
    if dt :| 0.0 < dt && !EqualLags(lib.lag, m, dt) {
      UnequalLagsEscape(lib, m, dt);
    } else {
      forall ticks: seq<Tick> ensures WithinLimit(lib, m, ticks) {
        SpeedNeverExceedsLimit(lib, m, ticks);
      }
    }
  }
}
