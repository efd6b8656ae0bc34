/** The combined translation limiter of Robot::advanceActuation: it walks the straight line in
    velocity space from the present velocity to its destination, and splits the tick between
    braking (up to the slowest point of that line) and accelerating (beyond it). */
module VectorLimiter {
  import opened RealMath

  /** Length walked along the line in one tick. */
  function Travel(distance: real, braking: real, accel: real, decel: real, dt: real): real
    requires decel != 0.0
  {
    var brakeStep := Min(braking, decel * dt);
    var remaining := Max(0.0, dt - brakeStep / decel);
    brakeStep + Min(distance - brakeStep, accel * remaining)
  }

  /** The part of the line on which the speed still falls. */
  function BrakingLength(v: V2, u: V2, distance: real): real {
    Clamp(-Dot(v, u), 0.0, distance)
  }

  function Direction(d: V2, distance: real): V2
    requires distance != 0.0
  {
    V2(d.x / distance, d.y / distance)
  }

  function LimitTick(hyp: (real, real) -> real, v: V2, destination: V2, accel: real, decel: real, dt: real): V2
    requires decel != 0.0
  {
    var d := Minus(destination, v);
    var distance := hyp(d.x, d.y);
    if distance > 0.0 then
      var u := Direction(d, distance);
      Plus(v, Scale(Travel(distance, BrakingLength(v, u, distance), accel, decel, dt), u))
    else
      v
  }

  /** A fixed destination approached over a sequence of ticks. */
  function LimitRun(hyp: (real, real) -> real, v: V2, destination: V2, accel: real, decel: real, ticks: seq<real>): V2
    requires decel != 0.0
  {
    if ticks == [] then v
    else
      LimitTick(hyp, LimitRun(hyp, v, destination, accel, decel, ticks[..|ticks| - 1]),
                destination, accel, decel, ticks[|ticks| - 1])
  }

  // --- one dimension: the walk along the line -----------------------------------------------

  /** The same walk told by its braking time `tb`. */
  ghost function Walk(distance: real, braking: real, tb: real, accel: real, decel: real, dt: real): real {
    if dt <= tb then decel * dt
    else braking + Min(distance - braking, accel * (dt - tb))
  }

  ghost predicate WalkInput(distance: real, braking: real, tb: real, accel: real, decel: real) {
    0.0 < accel && 0.0 < decel && 0.0 <= tb && braking == decel * tb && braking <= distance
  }

  lemma TravelFrom(distance: real, braking: real, accel: real, decel: real, dt: real, brakeStep: real, remaining: real)
    requires decel != 0.0
    requires brakeStep == Min(braking, decel * dt)
    requires remaining == Max(0.0, dt - brakeStep / decel)
    ensures Travel(distance, braking, accel, decel, dt)
         == brakeStep + Min(distance - brakeStep, accel * remaining)
  {
  }

  lemma TravelWhileBraking(distance: real, braking: real, tb: real, accel: real, decel: real, dt: real)
    requires WalkInput(distance, braking, tb, accel, decel) && 0.0 <= dt <= tb
    ensures Travel(distance, braking, accel, decel, dt) == decel * dt
  {
    hide Travel;
    var x := decel * dt;
    assert x <= braking by { ProductMonotone(dt, tb, decel); }
    assert x / decel == dt by { DivMul(decel, dt); }
    TravelFrom(distance, braking, accel, decel, dt, x, 0.0);
  }

  lemma TravelPastBraking(distance: real, braking: real, tb: real, accel: real, decel: real, dt: real)
    requires WalkInput(distance, braking, tb, accel, decel) && tb < dt
    ensures Travel(distance, braking, accel, decel, dt) == braking + Min(distance - braking, accel * (dt - tb))
  {
    hide Travel;
    assert braking <= decel * dt by { ProductMonotone(tb, dt, decel); }
    assert braking / decel == tb by { DivMul(decel, tb); }
    TravelFrom(distance, braking, accel, decel, dt, braking, dt - tb);
  }

  lemma TravelIsWalk(distance: real, braking: real, tb: real, accel: real, decel: real, dt: real)
    requires WalkInput(distance, braking, tb, accel, decel) && 0.0 <= dt
    ensures Travel(distance, braking, accel, decel, dt) == Walk(distance, braking, tb, accel, decel, dt)
  {
    hide Travel;
    if dt <= tb {
      TravelWhileBraking(distance, braking, tb, accel, decel, dt);
    } else {
      TravelPastBraking(distance, braking, tb, accel, decel, dt);
    }
  }

  lemma WalkRange(distance: real, braking: real, tb: real, accel: real, decel: real, dt: real)
    requires WalkInput(distance, braking, tb, accel, decel) && 0.0 <= dt
    ensures 0.0 <= Walk(distance, braking, tb, accel, decel, dt) <= distance
  {
    if dt <= tb {
      ProductMonotone(dt, tb, decel);
      ProductNonNegative(decel, dt);
    } else {
      ProductNonNegative(accel, dt - tb);
      ProductNonNegative(decel, tb);
    }
  }

  lemma WalkAdds(distance: real, braking: real, tb: real, accel: real, decel: real, s: real, t: real)
    requires WalkInput(distance, braking, tb, accel, decel) && 0.0 <= s && 0.0 <= t
    ensures var first := Walk(distance, braking, tb, accel, decel, s);
            Walk(distance, braking, tb, accel, decel, s + t)
            == first + Walk(distance - first, Max(braking - first, 0.0), Max(tb - s, 0.0), accel, decel, t)
  {
    RestOfBraking(distance, braking, tb, accel, decel, s);
    if s <= tb {
      assert decel * (s + t) == decel * s + decel * t;
      assert Max(tb - s, 0.0) == tb - s;
    } else {
      ProductNonNegative(accel, s - tb);
      ProductNonNegative(accel, t);
      assert accel * (s + t - tb) == accel * (s - tb) + accel * t;
      assert Max(tb - s, 0.0) == 0.0;
    }
  }

  lemma RestOfBraking(distance: real, braking: real, tb: real, accel: real, decel: real, s: real)
    requires WalkInput(distance, braking, tb, accel, decel) && 0.0 <= s
    ensures var first := Walk(distance, braking, tb, accel, decel, s);
            WalkInput(distance - first, Max(braking - first, 0.0), Max(tb - s, 0.0), accel, decel)
  {
    WalkRange(distance, braking, tb, accel, decel, s);
    if s <= tb {
      ProductNonNegative(decel, tb - s);
      assert Max(tb - s, 0.0) == tb - s;
      assert decel * (tb - s) == decel * tb - decel * s;
    } else {
      assert Max(tb - s, 0.0) == 0.0;
      assert decel * 0.0 == 0.0;
      ProductNonNegative(accel, s - tb);
    }
  }

  lemma TravelRange(distance: real, braking: real, accel: real, decel: real, dt: real)
    requires 0.0 <= braking <= distance && 0.0 < accel && 0.0 < decel && 0.0 <= dt
    ensures 0.0 <= Travel(distance, braking, accel, decel, dt) <= distance
  {
    hide Travel, Walk;
    Quotient(braking, decel);
    TravelIsWalk(distance, braking, braking / decel, accel, decel, dt);
    WalkRange(distance, braking, braking / decel, accel, decel, dt);
  }

  /** Walking for s and then for t is walking for s + t. */
  lemma TravelAdds(distance: real, braking: real, accel: real, decel: real, s: real, t: real)
    requires 0.0 <= braking <= distance && 0.0 < accel && 0.0 < decel && 0.0 <= s && 0.0 <= t
    ensures var first := Travel(distance, braking, accel, decel, s);
            && 0.0 <= first <= distance
            && Travel(distance, braking, accel, decel, s + t)
               == first + Travel(distance - first, Max(braking - first, 0.0), accel, decel, t)
  {
    hide Travel, Walk;
    var first := Travel(distance, braking, accel, decel, s);
    var tb := braking / decel;
    var rest := Max(tb - s, 0.0);
    TravelRange(distance, braking, accel, decel, s);
    Quotient(braking, decel);
    TravelIsWalk(distance, braking, tb, accel, decel, s);
    TravelIsWalk(distance, braking, tb, accel, decel, s + t);
    WalkAdds(distance, braking, tb, accel, decel, s, t);
    RestOfBraking(distance, braking, tb, accel, decel, s);
    TravelIsWalk(distance - first, Max(braking - first, 0.0), rest, accel, decel, t);
  }

  // --- two dimensions -----------------------------------------------------------------------

  lemma UnitComponents(x: real, y: real, h: real, ux: real, uy: real)
    requires 0.0 < h && h * h == x * x + y * y
    requires x == h * ux && y == h * uy
    ensures ux * ux + uy * uy == 1.0
  {
    var n := ux * ux + uy * uy;
    var q := h * h;
    ScaledSquares(h, ux, uy, x, y, q, n);
    NamedProductPositive(h, h, q);
    UnitFactor(q, n);
  }

  lemma UnitDirection(hyp: (real, real) -> real, d: V2)
    requires IsHypot(hyp) && 0.0 < hyp(d.x, d.y)
    ensures var u := Direction(d, hyp(d.x, d.y));
            Dot(u, u) == 1.0 && d == Scale(hyp(d.x, d.y), u)
  {
    var h := hyp(d.x, d.y);
    HypotSquare(hyp, d.x, d.y);
    hide IsHypot;
    Quotient(d.x, h);
    Quotient(d.y, h);
    UnitComponents(d.x, d.y, h, d.x / h, d.y / h);
  }

  lemma AlongComponent(from: real, to: real, h: real, u: real, w: real)
    requires to - from == h * u
    ensures to - (from + w * u) == (h - w) * u
  {
    assert (h - w) * u == h * u - w * u;
  }

  lemma DotAlong(v: V2, u: V2, w: real)
    requires Dot(u, u) == 1.0
    ensures Dot(Plus(v, Scale(w, u)), u) == Dot(v, u) + w
  {
    assert (v.x + w * u.x) * u.x == v.x * u.x + w * (u.x * u.x);
    assert (v.y + w * u.y) * u.y == v.y * u.y + w * (u.y * u.y);
    assert w * (u.x * u.x) + w * (u.y * u.y) == w * Dot(u, u);
  }

  lemma DirectionOfScaled(k: real, u: V2)
    requires 0.0 < k
    ensures Direction(Scale(k, u), k) == u
  {
    DivMul(k, u.x);
    DivMul(k, u.y);
  }

  /** The walk seen from the start of the line: the direction is a unit vector, and after walking
      `w` the rest of the line is shorter by exactly `w` in the same direction. */
  lemma WalkGeometry(hyp: (real, real) -> real, v: V2, destination: V2, distance: real, w: real)
    requires IsHypot(hyp)
    requires distance == hyp(destination.x - v.x, destination.y - v.y) > 0.0
    requires 0.0 <= w <= distance
    ensures var d := Minus(destination, v);
            var u := Direction(d, distance);
            var v' := Plus(v, Scale(w, u));
            var d' := Minus(destination, v');
            && Dot(u, u) == 1.0
            && d == Scale(distance, u)
            && d' == Scale(distance - w, u)
            && hyp(d'.x, d'.y) == distance - w
            && Dot(v', u) == Dot(v, u) + w
  {
    var d := Minus(destination, v);
    UnitDirection(hyp, d);
    var u := Direction(d, distance);
    var v' := Plus(v, Scale(w, u));
    AlongComponent(v.x, destination.x, distance, u.x, w);
    AlongComponent(v.y, destination.y, distance, u.y, w);
    var d' := Minus(destination, v');
    assert d' == Scale(distance - w, u);
    UnitLength(hyp, u);
    HypotScale(hyp, distance - w, u, d'.x, d'.y);
    DotAlong(v, u, w);
  }

  lemma UnitLength(hyp: (real, real) -> real, u: V2)
    requires IsHypot(hyp) && Dot(u, u) == 1.0
    ensures hyp(u.x, u.y) == 1.0
  {
    HypotIs(hyp, u.x, u.y, 1.0);
  }

  lemma ScaleAdds(v: V2, a: real, b: real, u: V2)
    ensures Plus(Plus(v, Scale(a, u)), Scale(b, u)) == Plus(v, Scale(a + b, u))
  {
    assert (a + b) * u.x == a * u.x + b * u.x;
    assert (a + b) * u.y == a * u.y + b * u.y;
  }

  /** One tick, told from the middle of a walk along the line from v. */
  lemma TickFromMiddle(hyp: (real, real) -> real, v: V2, destination: V2, distance: real, w: real,
                       accel: real, decel: real, dt: real)
    requires IsHypot(hyp) && 0.0 < accel && 0.0 < decel && 0.0 <= dt
    requires distance == hyp(destination.x - v.x, destination.y - v.y) > 0.0
    requires 0.0 <= w <= distance
    ensures var u := Direction(Minus(destination, v), distance);
            var braking := BrakingLength(v, u, distance);
            LimitTick(hyp, Plus(v, Scale(w, u)), destination, accel, decel, dt)
            == Plus(v, Scale(w + Travel(distance - w, Max(braking - w, 0.0), accel, decel, dt), u))
  {
    var u := Direction(Minus(destination, v), distance);
    var braking := BrakingLength(v, u, distance);
    var v' := Plus(v, Scale(w, u));
    var d' := Minus(destination, v');
    var left := distance - w;
    var rest := Max(braking - w, 0.0);
    WalkGeometry(hyp, v, destination, distance, w);
    var p := Dot(v, u);
    var p' := Dot(v', u);
    hide Travel, Dot, Plus, Minus, Scale, Direction;
    if left > 0.0 {
      DirectionOfScaled(left, u);
      assert BrakingLength(v', u, left) == rest;
      ScaleAdds(v, w, Travel(left, rest, accel, decel, dt), u);
    } else {
      TravelRange(0.0, rest, accel, decel, dt);
      assert hyp(d'.x, d'.y) == 0.0;
    }
  }

  /** Splitting one tick in two does not change where it ends. */
  lemma LimitTickAdds(hyp: (real, real) -> real, v: V2, destination: V2, accel: real, decel: real, s: real, t: real)
    requires IsHypot(hyp) && 0.0 < accel && 0.0 < decel && 0.0 <= s && 0.0 <= t
    ensures LimitTick(hyp, LimitTick(hyp, v, destination, accel, decel, s), destination, accel, decel, t)
         == LimitTick(hyp, v, destination, accel, decel, s + t)
  {
    var d := Minus(destination, v);
    var distance := hyp(d.x, d.y);
    if distance > 0.0 {
      var u := Direction(d, distance);
      var braking := BrakingLength(v, u, distance);
      hide Travel, Dot, Plus, Scale, Direction;
      TravelAdds(distance, braking, accel, decel, s, t);
      TickFromMiddle(hyp, v, destination, distance, Travel(distance, braking, accel, decel, s), accel, decel, t);
    }
  }

  lemma LimitTickZero(hyp: (real, real) -> real, v: V2, destination: V2, accel: real, decel: real)
    requires IsHypot(hyp) && 0.0 < accel && 0.0 < decel
    ensures LimitTick(hyp, v, destination, accel, decel, 0.0) == v
  {
    var d := Minus(destination, v);
    var distance := hyp(d.x, d.y);
    if distance > 0.0 {
      var u := Direction(d, distance);
      var braking := BrakingLength(v, u, distance);
      assert Travel(distance, braking, accel, decel, 0.0) == 0.0 by {
        assert decel * 0.0 == 0.0 && 0.0 / decel == 0.0 && accel * 0.0 == 0.0;
        assert Min(braking, decel * 0.0) == 0.0;
        assert Max(0.0, 0.0 - 0.0 / decel) == 0.0;
      }
      assert 0.0 * u.x == 0.0 && 0.0 * u.y == 0.0;
    }
  }

  /** Frame-partition independence: however the time is cut into ticks, the velocity reached is the
      one a single tick of the total length reaches. */
  lemma {:induction false} PartitionIndependence(hyp: (real, real) -> real, v: V2, destination: V2,
                                                 accel: real, decel: real, ticks: seq<real>)
    requires IsHypot(hyp) && 0.0 < accel && 0.0 < decel && AllPositive(ticks)
    ensures LimitRun(hyp, v, destination, accel, decel, ticks)
         == LimitTick(hyp, v, destination, accel, decel, Sum(ticks))
  {
    hide LimitTick;
    if ticks == [] {
      LimitTickZero(hyp, v, destination, accel, decel);
    } else {
      var init := ticks[..|ticks| - 1];
      PartitionIndependence(hyp, v, destination, accel, decel, init);
      SumNonNegative(init);
      LimitTickAdds(hyp, v, destination, accel, decel, Sum(init), ticks[|ticks| - 1]);
    }
  }

  // --- arrival ------------------------------------------------------------------------------

  /** Time the limiter needs from v to the destination. */
  function ArrivalTime(hyp: (real, real) -> real, v: V2, destination: V2, accel: real, decel: real): real
    requires accel != 0.0 && decel != 0.0
  {
    var d := Minus(destination, v);
    var distance := hyp(d.x, d.y);
    if distance > 0.0 then
      var braking := BrakingLength(v, Direction(d, distance), distance);
      braking / decel + (distance - braking) / accel
    else
      0.0
  }

  lemma WalkArrives(distance: real, braking: real, tb: real, ta: real, accel: real, decel: real, dt: real)
    requires WalkInput(distance, braking, tb, accel, decel) && 0.0 <= dt && 0.0 <= ta
    requires distance - braking == accel * ta
    ensures Walk(distance, braking, tb, accel, decel, dt) == distance <==> tb + ta <= dt
  {
    ProductNonNegative(accel, ta);
    if dt <= tb {
      if dt < tb {
        ProductStrict(decel, dt, tb);
      } else if 0.0 < ta {
        ProductStrict(accel, 0.0, ta);
      } else {
        assert accel * ta == 0.0;
      }
    } else {
      if ta <= dt - tb {
        ProductMonotone(ta, dt - tb, accel);
      } else {
        ProductStrict(accel, dt - tb, ta);
      }
    }
  }

  lemma TravelArrives(distance: real, braking: real, accel: real, decel: real, dt: real)
    requires 0.0 <= braking <= distance && 0.0 < accel && 0.0 < decel && 0.0 <= dt && 0.0 < distance
    ensures Travel(distance, braking, accel, decel, dt) == distance
       <==> braking / decel + (distance - braking) / accel <= dt
  {
    hide Travel, Walk;
    Quotient(braking, decel);
    Quotient(distance - braking, accel);
    TravelIsWalk(distance, braking, braking / decel, accel, decel, dt);
    WalkArrives(distance, braking, braking / decel, (distance - braking) / accel, accel, decel, dt);
  }

  /** Finite arrival, exactly: a run of ticks stands at its destination if and only if the ticks
      add up to the arrival time; so it is reached in finite time and never left again. */
  lemma ArrivesExactlyWhen(hyp: (real, real) -> real, v: V2, destination: V2, accel: real, decel: real, ticks: seq<real>)
    requires IsHypot(hyp) && 0.0 < accel && 0.0 < decel && AllPositive(ticks)
    ensures LimitRun(hyp, v, destination, accel, decel, ticks) == destination
       <==> ArrivalTime(hyp, v, destination, accel, decel) <= Sum(ticks)
  {
    hide Travel, LimitRun, Dot, IsHypot, Direction;
    PartitionIndependence(hyp, v, destination, accel, decel, ticks);
    SumNonNegative(ticks);
    var d := Minus(destination, v);
    var distance := hyp(d.x, d.y);
    var dt := Sum(ticks);
    if distance > 0.0 {
      var u := Direction(d, distance);
      var braking := BrakingLength(v, u, distance);
      TravelArrives(distance, braking, accel, decel, dt);
      TravelRange(distance, braking, accel, decel, dt);
      var w := Travel(distance, braking, accel, decel, dt);
      WalkGeometry(hyp, v, destination, distance, w);
      var v' := Plus(v, Scale(w, u));
      var d' := Minus(destination, v');
      assert hyp(d'.x, d'.y) == distance - w;
      HypotIs(hyp, 0.0, 0.0, 0.0);
      if w == distance {
        assert 0.0 * u.x == 0.0 && 0.0 * u.y == 0.0;
        assert d' == V2(0.0, 0.0);
      }
    } else {
      HypotSquare(hyp, d.x, d.y);
      SumOfSquaresZero(d.x, d.y);
    }
  }

  /** The arrival time is at most the whole distance at the weaker of the two limits. */
  lemma ArrivalTimeBound(hyp: (real, real) -> real, v: V2, destination: V2, accel: real, decel: real)
    requires IsHypot(hyp) && 0.0 < accel && 0.0 < decel
    ensures Min(accel, decel) * ArrivalTime(hyp, v, destination, accel, decel)
         <= hyp(destination.x - v.x, destination.y - v.y)
  {
    hide Dot;
    var d := Minus(destination, v);
    var distance := hyp(d.x, d.y);
    var m := Min(accel, decel);
    if distance > 0.0 {
      var braking := BrakingLength(v, Direction(d, distance), distance);
      var tb := braking / decel;
      var ta := (distance - braking) / accel;
      Quotient(braking, decel);
      Quotient(distance - braking, accel);
      ProductMonotone(m, decel, tb);
      ProductMonotone(m, accel, ta);
      assert m * (tb + ta) == m * tb + m * ta;
    } else {
      assert m * 0.0 == 0.0;
    }
  }

  /** Whatever the ticks, the destination is reached by the time in which the weaker limit alone would
      cover the distance. */
  lemma ArrivesInTime(hyp: (real, real) -> real, v: V2, destination: V2, accel: real, decel: real, ticks: seq<real>)
    requires IsHypot(hyp) && 0.0 < accel && 0.0 < decel && AllPositive(ticks)
    requires hyp(destination.x - v.x, destination.y - v.y) <= Min(accel, decel) * Sum(ticks)
    ensures LimitRun(hyp, v, destination, accel, decel, ticks) == destination
  {
    hide *;
    ArrivesExactlyWhen(hyp, v, destination, accel, decel, ticks);
    ArrivalTimeBound(hyp, v, destination, accel, decel);
    WeakerIsPositive(accel, decel);
    Cancel(Min(accel, decel), ArrivalTime(hyp, v, destination, accel, decel), Sum(ticks));
  }

  lemma WeakerIsPositive(accel: real, decel: real)
    requires 0.0 < accel && 0.0 < decel
    ensures 0.0 < Min(accel, decel)
  {
  }

  // --- what one tick may do to the speed ----------------------------------------------------

  ghost predicate OnSegment(a: V2, b: V2, p: V2) {
    exists k: real :: 0.0 <= k <= 1.0 && p == Along(a, b, k)
  }

  function Along(a: V2, b: V2, k: real): V2 {
    Plus(a, Scale(k, Minus(b, a)))
  }

  /** Cauchy-Schwarz against a unit vector. */
  lemma DotBelowNorm(v: V2, u: V2, h: real)
    requires Dot(u, u) == 1.0 && 0.0 <= h && h * h == Dot(v, v)
    ensures -h <= Dot(v, u) <= h
  {
    var p := Dot(v, u);
    var q := v.x * u.y - v.y * u.x;
    assert p * p + q * q == Dot(v, v) * Dot(u, u) by {
      LagrangeIdentity(v.x, v.y, u.x, u.y);
    }
    SquareNonNegative(q);
    SquareMonotone(p, h);
    SquareMonotone(-p, h);
  }

  lemma LagrangeIdentity(a: real, b: real, c: real, d: real)
    ensures (a * c + b * d) * (a * c + b * d) + (a * d - b * c) * (a * d - b * c) == (a * a + b * b) * (c * c + d * d)
  {
    var ac, bd, ad, bc := a * c, b * d, a * d, b * c;
    assert ac * bd == ad * bc;
    assert ac * ac == (a * a) * (c * c);
    assert bd * bd == (b * b) * (d * d);
    assert ad * ad == (a * a) * (d * d);
    assert bc * bc == (b * b) * (c * c);
    assert (ac + bd) * (ac + bd) == ac * ac + 2.0 * (ac * bd) + bd * bd;
    assert (ad - bc) * (ad - bc) == ad * ad - 2.0 * (ad * bc) + bc * bc;
    DistributeSums(a * a, b * b, c * c, d * d);
  }

  lemma DistributeSums(p: real, q: real, r: real, s: real)
    ensures (p + q) * (r + s) == p * r + p * s + q * r + q * s
  {
  }

  lemma NormAlong(v: V2, u: V2, w: real)
    requires Dot(u, u) == 1.0
    ensures var v' := Plus(v, Scale(w, u));
            Dot(v', v') == Dot(v, v) + 2.0 * (w * Dot(v, u)) + w * w
  {
    assert (v.x + w * u.x) * (v.x + w * u.x) == v.x * v.x + 2.0 * (w * (v.x * u.x)) + (w * w) * (u.x * u.x);
    assert (v.y + w * u.y) * (v.y + w * u.y) == v.y * v.y + 2.0 * (w * (v.y * u.y)) + (w * w) * (u.y * u.y);
    assert (w * w) * (u.x * u.x) + (w * w) * (u.y * u.y) == (w * w) * Dot(u, u);
    assert w * (v.x * u.x) + w * (v.y * u.y) == w * Dot(v, u);
  }

  /** Speed along a line, compared at two points of it: it falls on the braking part and rises
      beyond, never faster than the distance walked. */
  lemma SpeedAlongLine(hyp: (real, real) -> real, v: V2, u: V2, w: real)
    requires IsHypot(hyp) && Dot(u, u) == 1.0 && 0.0 <= w
    ensures var v' := Plus(v, Scale(w, u));
            && hyp(v.x, v.y) - w <= hyp(v'.x, v'.y) <= hyp(v.x, v.y) + w
            && (w <= -Dot(v, u) ==> hyp(v'.x, v'.y) <= hyp(v.x, v.y))
            && (0.0 <= Dot(v, u) ==> hyp(v.x, v.y) <= hyp(v'.x, v'.y))
  {
    var v' := Plus(v, Scale(w, u));
    var h := hyp(v.x, v.y);
    var h' := hyp(v'.x, v'.y);
    NormAlong(v, u, w);
    DotBelowNorm(v, u, h);
    assert h * h == Dot(v, v) && h' * h' == Dot(v', v');
    SpeedFromSquares(h, h', Dot(v, u), w);
  }

  lemma SpeedFromSquares(h: real, h': real, p: real, w: real)
    requires 0.0 <= h && 0.0 <= h' && 0.0 <= w && -h <= p <= h
    requires h' * h' == h * h + 2.0 * (w * p) + w * w
    ensures h - w <= h' <= h + w
    ensures w <= -p ==> h' <= h
    ensures 0.0 <= p ==> h <= h'
  {
    assert (h + w) * (h + w) == h * h + 2.0 * (w * h) + w * w;
    assert (h - w) * (h - w) == h * h - 2.0 * (w * h) + w * w;
    ProductNonNegative(w, h - p);
    ProductNonNegative(w, h + p);
    assert w * (h - p) == w * h - w * p && w * (h + p) == w * h + w * p;
    SquareMonotone(h', h + w);
    SquareMonotone(h - w, h');
    if w <= -p {
      ProductNonNegative(w, -p - w);
      ProductNonNegative(w, -p);
      assert w * (-p - w) == -(w * p) - w * w;
      SquareMonotone(h', h);
    }
    if 0.0 <= p {
      ProductNonNegative(w, p);
      SquareMonotone(h, h');
    }
  }

  lemma WalkSplit(distance: real, braking: real, tb: real, accel: real, decel: real, dt: real) returns (b: real)
    requires WalkInput(distance, braking, tb, accel, decel) && 0.0 <= dt
    ensures var w := Walk(distance, braking, tb, accel, decel, dt);
            && 0.0 <= b <= w && b <= decel * dt && w - b <= accel * dt
            && b <= braking && (b < w ==> b == braking && b < distance)
  {
    ProductNonNegative(decel, tb);
    ProductNonNegative(decel, dt);
    ProductNonNegative(accel, dt);
    if dt <= tb {
      b := decel * dt;
      ProductMonotone(dt, tb, decel);
    } else {
      b := braking;
      ProductMonotone(tb, dt, decel);
      ProductNonNegative(accel, dt - tb);
      ProductMonotone(dt - tb, dt, accel);
    }
  }

  lemma WalkBelowStrongerLimit(distance: real, braking: real, tb: real, accel: real, decel: real, dt: real)
    requires WalkInput(distance, braking, tb, accel, decel) && 0.0 <= dt
    ensures Walk(distance, braking, tb, accel, decel, dt) <= Max(accel, decel) * dt
  {
    var m := Max(accel, decel);
    if dt <= tb {
      ProductMonotone(decel, m, dt);
    } else {
      ProductMonotone(decel, m, tb);
      ProductMonotone(accel, m, dt - tb);
      SplitProduct(m, tb, dt);
    }
  }

  lemma WalkAboveWeakerLimit(distance: real, braking: real, tb: real, accel: real, decel: real, dt: real)
    requires WalkInput(distance, braking, tb, accel, decel) && 0.0 <= dt
    ensures var w := Walk(distance, braking, tb, accel, decel, dt);
            w == distance || Min(accel, decel) * dt <= w
  {
    var m := Min(accel, decel);
    if dt <= tb {
      ProductMonotone(m, decel, dt);
    } else {
      ProductMonotone(m, decel, tb);
      ProductMonotone(m, accel, dt - tb);
      SplitProduct(m, tb, dt);
    }
  }

  lemma SplitProduct(m: real, s: real, t: real)
    ensures m * t == m * s + m * (t - s)
  {
  }

  lemma TravelSplit(distance: real, braking: real, accel: real, decel: real, dt: real) returns (b: real)
    requires 0.0 <= braking <= distance && 0.0 < accel && 0.0 < decel && 0.0 <= dt
    ensures var w := Travel(distance, braking, accel, decel, dt);
            && 0.0 <= b <= w <= distance && b <= braking
            && b <= decel * dt && w - b <= accel * dt && w <= Max(accel, decel) * dt
            && (w == distance || Min(accel, decel) * dt <= w)
            && (b < w ==> b == braking && b < distance)
  {
    hide Travel, Walk;
    var tb := braking / decel;
    Quotient(braking, decel);
    TravelRange(distance, braking, accel, decel, dt);
    TravelIsWalk(distance, braking, tb, accel, decel, dt);
    b := WalkSplit(distance, braking, tb, accel, decel, dt);
    WalkBelowStrongerLimit(distance, braking, tb, accel, decel, dt);
    WalkAboveWeakerLimit(distance, braking, tb, accel, decel, dt);
  }

  /** Walking from v first the braking part b and then the rest of w. */
  lemma SpeedAfterWalk(hyp: (real, real) -> real, v: V2, u: V2, distance: real, b: real, w: real)
    requires IsHypot(hyp) && Dot(u, u) == 1.0 && 0.0 <= b <= w && b <= distance
    requires b <= BrakingLength(v, u, distance)
    requires b < w ==> b == BrakingLength(v, u, distance) && b < distance
    ensures var v' := Plus(v, Scale(w, u));
            hyp(v.x, v.y) - b <= hyp(v'.x, v'.y) <= hyp(v.x, v.y) + (w - b)
  {
    var mid := Plus(v, Scale(b, u));
    ScaleAdds(v, b, w - b, u);
    DotAlong(v, u, b);
    hide Dot, Plus, Scale;
    SpeedAlongLine(hyp, v, u, b);
    SpeedAlongLine(hyp, mid, u, w - b);
    if b > 0.0 {
      assert b <= -Dot(v, u);
    } else {
      assert b == 0.0;
    }
  }

  lemma SegmentPoint(v: V2, destination: V2, u: V2, distance: real, w: real)
    requires 0.0 < distance && 0.0 <= w <= distance
    requires Minus(destination, v) == Scale(distance, u)
    ensures OnSegment(v, destination, Plus(v, Scale(w, u)))
  {
    var k := w / distance;
    Quotient(w, distance);
    Quotient(distance - w, distance);
    assert distance * k == w;
    assert k <= 1.0 by { Cancel(distance, k, 1.0); }
    assert k * (distance * u.x) == (distance * k) * u.x;
    assert k * (distance * u.y) == (distance * k) * u.y;
    assert Plus(v, Scale(w, u)) == Along(v, destination, k);
  }

  /** A tick away from its destination is a walk of length w, braking on its first part b. */
  lemma TickIsWalk(hyp: (real, real) -> real, v: V2, destination: V2, accel: real, decel: real, dt: real)
    returns (u: V2, distance: real, b: real, w: real)
    requires IsHypot(hyp) && 0.0 < accel && 0.0 < decel && 0.0 <= dt
    requires 0.0 < hyp(destination.x - v.x, destination.y - v.y)
    ensures LimitTick(hyp, v, destination, accel, decel, dt) == Plus(v, Scale(w, u))
    ensures distance == hyp(destination.x - v.x, destination.y - v.y)
    ensures Dot(u, u) == 1.0 && Minus(destination, v) == Scale(distance, u)
    ensures 0.0 <= b <= w <= distance && b <= BrakingLength(v, u, distance)
    ensures b < w ==> b == BrakingLength(v, u, distance) && b < distance
    ensures b <= decel * dt && w - b <= accel * dt && w <= Max(accel, decel) * dt
    ensures w == distance || Min(accel, decel) * dt <= w
  {
    var d := Minus(destination, v);
    distance := hyp(d.x, d.y);
    u := Direction(d, distance);
    var braking := BrakingLength(v, u, distance);
    w := Travel(distance, braking, accel, decel, dt);
    hide Travel, IsHypot;
    UnitDirection(hyp, d);
    b := TravelSplit(distance, braking, accel, decel, dt);
  }

  lemma WholeWalk(v: V2, destination: V2, u: V2, distance: real, w: real)
    requires Minus(destination, v) == Scale(distance, u) && w == distance
    ensures Plus(v, Scale(w, u)) == destination
  {
    assert w * u.x == distance * u.x && w * u.y == distance * u.y;
  }

  /** Every tick stays on the segment to its destination, moves the velocity by at most the stronger
      limit and, short of the destination, by at least the weaker one, raises the speed by at most
      accel * dt and lowers it by at most decel * dt. */
  lemma TickBounds(hyp: (real, real) -> real, v: V2, destination: V2, accel: real, decel: real, dt: real)
    requires IsHypot(hyp) && 0.0 < accel && 0.0 < decel && 0.0 <= dt
    ensures var v' := LimitTick(hyp, v, destination, accel, decel, dt);
            && OnSegment(v, destination, v')
            && hyp(v'.x - v.x, v'.y - v.y) <= Max(accel, decel) * dt
            && (v' == destination || Min(accel, decel) * dt <= hyp(v'.x - v.x, v'.y - v.y))
            && hyp(v'.x, v'.y) <= hyp(v.x, v.y) + accel * dt
            && hyp(v'.x, v'.y) >= hyp(v.x, v.y) - decel * dt
  {
    var v' := LimitTick(hyp, v, destination, accel, decel, dt);
    if 0.0 < hyp(destination.x - v.x, destination.y - v.y) {
      var u, distance, b, w := TickIsWalk(hyp, v, destination, accel, decel, dt);
      assert v'.x - v.x == w * u.x && v'.y - v.y == w * u.y;
      hide LimitTick, OnSegment, Dot, IsHypot, BrakingLength, Minus, Plus, Scale, Min, Max;
      if w == distance {
        WholeWalk(v, destination, u, distance, w);
      }
      UnitLength(hyp, u);
      HypotScale(hyp, w, u, v'.x - v.x, v'.y - v.y);
      SpeedAfterWalk(hyp, v, u, distance, b, w);
      SegmentPoint(v, destination, u, distance, w);
    } else {
      HypotIs(hyp, 0.0, 0.0, 0.0);
      HypotSquare(hyp, destination.x - v.x, destination.y - v.y);
      SumOfSquaresZero(destination.x - v.x, destination.y - v.y);
      assert v' == destination;
      assert v' == Along(v, destination, 0.0);
      ProductNonNegative(Max(accel, decel), dt);
      ProductNonNegative(accel, dt);
      ProductNonNegative(decel, dt);
    }
  }
}
