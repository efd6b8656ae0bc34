/** The closed two-phase model of a straight kick: constant deceleration while sliding until a set
    fraction of the launch speed is left, a smaller constant deceleration while rolling from there. */
module BallProfile {
  import opened RealMath

  /** Speeds in mm/s, decelerations in mm/s^2 (positive), times in s. */
  datatype Profile = Profile(v0: real, slide: real, roll: real, switchSpeed: real, switchTime: real)
  {
    ghost predicate Valid() {
      && 0.0 < slide && 0.0 < roll && 0.0 <= switchSpeed <= v0
      && 0.0 <= switchTime && slide * switchTime == v0 - switchSpeed
    }
  }

  function ProfileOf(v0: real, slide: real, roll: real, k: real): Profile
    requires slide != 0.0
  {
    Profile(v0, slide, roll, k * v0, (v0 - k * v0) / slide)
  }

  lemma ProfileOfValid(v0: real, slide: real, roll: real, k: real)
    requires 0.0 <= v0 && 0.0 < slide && 0.0 < roll && 0.0 <= k <= 1.0
    ensures ProfileOf(v0, slide, roll, k).Valid()
  {
    NamedProductNonNegative(k, v0, k * v0);
    NamedProductNonNegative(1.0 - k, v0, v0 - k * v0);
    Quotient(v0 - k * v0, slide);
  }

  function Speed(c: Profile, t: real): real {
    if t <= c.switchTime then c.v0 - c.slide * t
    else Max(0.0, c.switchSpeed - c.roll * (t - c.switchTime))
  }

  /** Distance covered while a speed falls linearly at `decel` for a time t. */
  function Linear(v: real, decel: real, t: real): real {
    v * t - 0.5 * (decel * (t * t))
  }

  function StopTime(c: Profile): real
    requires c.roll != 0.0
  {
    c.switchTime + c.switchSpeed / c.roll
  }

  /** Distance covered up to time t. */
  function Distance(c: Profile, t: real): real
    requires c.roll != 0.0
  {
    if t <= c.switchTime then Linear(c.v0, c.slide, t)
    else
      Linear(c.v0, c.slide, c.switchTime) + Linear(c.switchSpeed, c.roll, RollingTime(c, t))
  }

  /** The part of [switchTime, t] in which the ball still rolls. */
  function RollingTime(c: Profile, t: real): real
    requires c.roll != 0.0
  {
    Min(t, StopTime(c)) - c.switchTime
  }

  // --- the distance is bracketed by the end speeds of any stretch of time -------------------------

  ghost predicate Bracketed(c: Profile, a: real, b: real)
    requires c.roll != 0.0
  {
    && Speed(c, b) <= Speed(c, a)
    && Speed(c, b) * (b - a) <= Distance(c, b) - Distance(c, a) <= Speed(c, a) * (b - a)
  }

  lemma LinearGrows(v: real, decel: real, s: real, t: real)
    ensures Linear(v, decel, t) - Linear(v, decel, s) == (v - 0.5 * (decel * (s + t))) * (t - s)
  {
    var x := t - s;
    assert t * t - s * s == (s + t) * x;
    assert decel * (t * t) - decel * (s * s) == decel * ((s + t) * x);
    assert decel * ((s + t) * x) == (decel * (s + t)) * x;
  }

  lemma LinearBracket(v: real, decel: real, s: real, t: real)
    requires 0.0 <= decel && s <= t
    ensures v - decel * t <= v - decel * s
    ensures (v - decel * t) * (t - s) <= Linear(v, decel, t) - Linear(v, decel, s) <= (v - decel * s) * (t - s)
  {
    LinearGrows(v, decel, s, t);
    hide Linear;
    var mean := v - 0.5 * (decel * (s + t));
    NamedProductNonNegative(decel, t - s, decel * (t - s));
    assert decel * (s + t) == decel * s + decel * t;
    assert decel * (t - s) == decel * t - decel * s;
    ProductMonotone(v - decel * t, mean, t - s);
    ProductMonotone(mean, v - decel * s, t - s);
  }

  lemma SlideSpeed(c: Profile, t: real)
    requires c.Valid() && 0.0 <= t <= c.switchTime
    ensures Speed(c, t) == c.v0 - c.slide * t
    ensures c.switchSpeed <= Speed(c, t) <= c.v0
  {
    ProductMonotone(t, c.switchTime, c.slide);
    NamedProductNonNegative(c.slide, t, c.slide * t);
  }

  lemma RollSpeed(c: Profile, t: real)
    requires c.Valid() && c.switchTime <= t
    ensures t <= StopTime(c) ==> Speed(c, t) == c.switchSpeed - c.roll * (t - c.switchTime)
    ensures StopTime(c) <= t ==> Speed(c, t) == 0.0
    ensures 0.0 <= Speed(c, t) <= c.switchSpeed
    ensures c.switchTime <= StopTime(c)
  {
    var u := t - c.switchTime;
    var stop := c.switchSpeed / c.roll;
    Quotient(c.switchSpeed, c.roll);
    RollSpeedIs(c, t, u);
    hide Speed;
    NamedProductNonNegative(c.roll, u, c.roll * u);
    if u <= stop {
      ProductMonotone(u, stop, c.roll);
    }
    if stop <= u {
      ProductMonotone(stop, u, c.roll);
    }
  }

  lemma RollSpeedIs(c: Profile, t: real, u: real)
    requires c.Valid() && 0.0 <= u == t - c.switchTime
    ensures Speed(c, t) == Max(0.0, c.switchSpeed - c.roll * u)
  {
    if u == 0.0 {
      assert c.roll * u == 0.0;
    }
  }

  lemma SpeedRange(c: Profile, t: real)
    requires c.Valid() && 0.0 <= t
    ensures 0.0 <= Speed(c, t) <= c.v0
  {
    hide Speed;
    if t <= c.switchTime {
      SlideSpeed(c, t);
    } else {
      RollSpeed(c, t);
    }
  }

  lemma SlideBracket(c: Profile, a: real, b: real)
    requires c.Valid() && 0.0 <= a <= b <= c.switchTime
    ensures Bracketed(c, a, b)
  {
    SlideSpeed(c, a);
    SlideSpeed(c, b);
    LinearBracket(c.v0, c.slide, a, b);
    assert Distance(c, a) == Linear(c.v0, c.slide, a);
    assert Distance(c, b) == Linear(c.v0, c.slide, b);
    hide Speed, Distance, Linear;
  }

  lemma RollDistance(c: Profile, t: real)
    requires c.Valid() && c.switchTime <= t
    ensures Distance(c, t) == Linear(c.v0, c.slide, c.switchTime) + Linear(c.switchSpeed, c.roll, RollingTime(c, t))
    ensures t <= StopTime(c) ==> RollingTime(c, t) == t - c.switchTime
    ensures StopTime(c) <= t ==> RollingTime(c, t) == RollingTime(c, StopTime(c))
  {
    StopAfterSwitch(c);
    if t == c.switchTime {
      assert RollingTime(c, t) == 0.0;
      LinearAtZero(c.switchSpeed, c.roll);
    }
    hide Linear;
  }

  lemma LinearAtZero(v: real, decel: real)
    ensures Linear(v, decel, 0.0) == 0.0
  {
  }

  lemma RollBracket(c: Profile, a: real, b: real)
    requires c.Valid() && c.switchTime <= a <= b <= StopTime(c)
    ensures Bracketed(c, a, b)
  {
    hide Speed, Distance, Linear, StopTime, RollingTime;
    RollSpeed(c, a);
    RollSpeed(c, b);
    RollDistance(c, a);
    RollDistance(c, b);
    LinearBracketBetween(c.switchSpeed, c.roll, a - c.switchTime, b - c.switchTime, b - a);
  }

  lemma LinearBracketBetween(v: real, decel: real, s: real, t: real, u: real)
    requires 0.0 <= decel && 0.0 <= u == t - s
    ensures v - decel * t <= v - decel * s
    ensures (v - decel * t) * u <= Linear(v, decel, t) - Linear(v, decel, s) <= (v - decel * s) * u
  {
    hide Linear;
    LinearBracket(v, decel, s, t);
  }

  lemma StoppedBracket(c: Profile, a: real, b: real)
    requires c.Valid() && StopTime(c) <= a <= b
    ensures Bracketed(c, a, b)
  {
    hide Speed, Distance, StopTime;
    StopAfterSwitch(c);
    RollSpeed(c, StopTime(c));
    RollSpeed(c, a);
    RollSpeed(c, b);
    StoppedDistance(c, a);
    StoppedDistance(c, b);
    assert Speed(c, a) * (b - a) == 0.0 && Speed(c, b) * (b - a) == 0.0;
  }

  lemma StoppedDistance(c: Profile, t: real)
    requires c.Valid() && StopTime(c) <= t
    ensures Distance(c, t) == Distance(c, StopTime(c))
  {
    hide Linear, Distance, StopTime, RollingTime;
    StopAfterSwitch(c);
    RollDistance(c, StopTime(c));
    RollDistance(c, t);
  }

  lemma StopAfterSwitch(c: Profile)
    requires c.Valid()
    ensures c.switchTime <= StopTime(c)
  {
    Quotient(c.switchSpeed, c.roll);
  }

  lemma BracketsJoin(c: Profile, a: real, m: real, b: real)
    requires c.Valid() && a <= m <= b && Bracketed(c, a, m) && Bracketed(c, m, b)
    ensures Bracketed(c, a, b)
  {
    hide Speed, Distance;
    JoinBounds(Speed(c, a), Speed(c, m), Speed(c, b), m - a, b - m, b - a,
               Distance(c, m) - Distance(c, a), Distance(c, b) - Distance(c, m));
  }

  lemma JoinBounds(va: real, vm: real, vb: real, s: real, t: real, u: real, x: real, y: real)
    requires vb <= vm <= va && 0.0 <= s && 0.0 <= t && u == s + t
    requires vm * s <= x <= va * s && vb * t <= y <= vm * t
    ensures vb * u <= x + y <= va * u
  {
    ProductMonotone(vb, vm, s);
    ProductMonotone(vm, va, t);
    assert va * u == va * s + va * t && vb * u == vb * s + vb * t;
  }

  /** Over any stretch of time the distance lies between the final and the initial speed times its
      length, also when the stretch contains the switch or the stop. */
  lemma DistanceBracket(c: Profile, a: real, b: real)
    requires c.Valid() && 0.0 <= a <= b
    ensures Bracketed(c, a, b)
  {
    Quotient(c.switchSpeed, c.roll);
    var ts, te := c.switchTime, StopTime(c);
    assert ts <= te;
    hide Bracketed, StopTime;
    var m1 := Clamp(ts, a, b);
    var m2 := Clamp(te, a, b);
    assert a <= m1 <= m2 <= b;
    if a <= ts {
      SlideBracket(c, a, m1);
    } else {
      SelfBracket(c, a);
    }
    if m1 < m2 {
      RollBracket(c, m1, m2);
    } else {
      SelfBracket(c, m1);
    }
    if te <= b {
      StoppedBracket(c, m2, b);
    } else {
      SelfBracket(c, b);
    }
    BracketsJoin(c, a, m1, m2);
    BracketsJoin(c, a, m2, b);
  }

  lemma SelfBracket(c: Profile, a: real)
    requires c.Valid()
    ensures Bracketed(c, a, a)
  {
    hide Speed, Distance;
    assert Speed(c, a) * (a - a) == 0.0;
  }

  // --- sums over ticks ------------------------------------------------------------------------

  /** Sum over the ticks of the speed at the start of each tick times its length. */
  function PreSum(c: Profile, ticks: seq<real>): real {
    if ticks == [] then 0.0
    else
      var n := |ticks| - 1;
      PreSum(c, ticks[..n]) + Speed(c, Sum(ticks[..n])) * ticks[n]
  }

  /** The same with the speed at the end of each tick: what a body covers that moves each tick at the
      speed it was left with. */
  function PostSum(c: Profile, ticks: seq<real>): real {
    if ticks == [] then 0.0
    else
      var n := |ticks| - 1;
      PostSum(c, ticks[..n]) + Speed(c, Sum(ticks)) * ticks[n]
  }

  lemma SumsStep(c: Profile, ticks: seq<real>)
    requires ticks != []
    ensures var n := |ticks| - 1;
            && PreSum(c, ticks) == PreSum(c, ticks[..n]) + Speed(c, Sum(ticks[..n])) * ticks[n]
            && PostSum(c, ticks) == PostSum(c, ticks[..n]) + Speed(c, Sum(ticks)) * ticks[n]
            && Sum(ticks) == Sum(ticks[..n]) + ticks[n]
  {
    hide Speed;
    PreSumStep(c, ticks);
    PostSumStep(c, ticks);
    hide PreSum, PostSum;
  }

  lemma PreSumStep(c: Profile, ticks: seq<real>)
    requires ticks != []
    ensures var n := |ticks| - 1;
            PreSum(c, ticks) == PreSum(c, ticks[..n]) + Speed(c, Sum(ticks[..n])) * ticks[n]
  {
    hide Speed, Sum;
  }

  lemma PostSumStep(c: Profile, ticks: seq<real>)
    requires ticks != []
    ensures var n := |ticks| - 1;
            PostSum(c, ticks) == PostSum(c, ticks[..n]) + Speed(c, Sum(ticks)) * ticks[n]
  {
    hide Speed, Sum;
  }

  lemma TravelStep(pre: real, post: real, x: real, pre': real, post': real, x': real,
                   va: real, vb: real, v0: real, dt: real, longest: real)
    requires post <= x <= pre && pre - post <= longest * (v0 - va)
    requires vb <= va && dt <= longest
    requires pre' == pre + va * dt && post' == post + vb * dt && vb * dt <= x' - x <= va * dt
    ensures post' <= x' <= pre' && pre' - post' <= longest * (v0 - vb)
  {
    ProductMonotone(dt, longest, va - vb);
    assert va * dt - vb * dt == dt * (va - vb);
    assert longest * (v0 - va) + longest * (va - vb) == longest * (v0 - vb);
  }

  /** Travel-distance bracket: over any ticks the post-tick sum is at most the closed-form distance,
      which is at most the pre-tick sum, and both are within v0 * (longest tick) of each other. */
  lemma {:induction false} TravelBracket(c: Profile, ticks: seq<real>, longest: real)
    requires c.Valid() && AllPositive(ticks) && 0.0 <= longest
    requires forall i :: 0 <= i < |ticks| ==> ticks[i] <= longest
    ensures PostSum(c, ticks) <= Distance(c, Sum(ticks)) <= PreSum(c, ticks)
    ensures PreSum(c, ticks) - PostSum(c, ticks) <= longest * (c.v0 - Speed(c, Sum(ticks)))
    ensures PreSum(c, ticks) - PostSum(c, ticks) <= longest * c.v0
  {
    TravelBracketed(c, ticks, longest);
    SumNonNegative(ticks);
    SpeedRange(c, Sum(ticks));
    hide *;
    ProductMonotone(c.v0 - Speed(c, Sum(ticks)), c.v0, longest);
  }

  lemma {:induction false} TravelBracketed(c: Profile, ticks: seq<real>, longest: real)
    requires c.Valid() && AllPositive(ticks) && 0.0 <= longest
    requires forall i :: 0 <= i < |ticks| ==> ticks[i] <= longest
    ensures PostSum(c, ticks) <= Distance(c, Sum(ticks)) <= PreSum(c, ticks)
    ensures PreSum(c, ticks) - PostSum(c, ticks) <= longest * (c.v0 - Speed(c, Sum(ticks)))
  {
    hide Speed, Distance, PreSum, PostSum, Sum;
    if ticks == [] {
      NoTicks(c, ticks, longest);
    } else {
      var n := |ticks| - 1;
      var init := ticks[..n];
      TravelBracketed(c, init, longest);
      SumNonNegative(init);
      SumsStep(c, ticks);
      DistanceBracketTick(c, Sum(init), Sum(ticks), ticks[n]);
      TravelStep(PreSum(c, init), PostSum(c, init), Distance(c, Sum(init)),
                 PreSum(c, ticks), PostSum(c, ticks), Distance(c, Sum(ticks)),
                 Speed(c, Sum(init)), Speed(c, Sum(ticks)), c.v0, ticks[n], longest);
    }
  }

  lemma DistanceBracketTick(c: Profile, a: real, b: real, dt: real)
    requires c.Valid() && 0.0 <= a <= b && dt == b - a
    ensures Speed(c, b) <= Speed(c, a)
    ensures Speed(c, b) * dt <= Distance(c, b) - Distance(c, a) <= Speed(c, a) * dt
  {
    hide Speed, Distance;
    DistanceBracket(c, a, b);
  }

  lemma NoTicks(c: Profile, ticks: seq<real>, longest: real)
    requires c.Valid() && ticks == []
    ensures PreSum(c, ticks) == PostSum(c, ticks) == Distance(c, Sum(ticks)) == 0.0
    ensures longest * (c.v0 - Speed(c, Sum(ticks))) == 0.0
  {
    AtStart(c);
    hide Speed, Distance;
    assert longest * 0.0 == 0.0;
  }

  lemma AtStart(c: Profile)
    requires c.Valid()
    ensures Speed(c, 0.0) == c.v0 && Distance(c, 0.0) == 0.0
  {
    assert c.slide * 0.0 == 0.0 && c.v0 * 0.0 == 0.0;
  }
}
