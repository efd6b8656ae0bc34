/** How far a body gets that moves each frame at the speed friction left it with, against the distance
    of the closed form, over whole runs and through the stop. */
module BallTravel {
  import opened RealMath
  import opened BallProfile
  import opened BallFriction

  // --- what is left of the way at low speed -------------------------------------------------------------

  lemma SlideFalls(c: Profile, w: real, a: real, b: real, t: real)
    requires c.Valid() && 0.0 <= a <= b <= c.switchTime && t == b - a && w <= c.slide
    ensures w * t <= Speed(c, a) - Speed(c, b)
  {
    SlideSpeed(c, a);
    SlideSpeed(c, b);
    hide Speed;
    assert c.slide * t == c.slide * b - c.slide * a;
    ProductMonotone(w, c.slide, t);
  }

  lemma RollFalls(c: Profile, w: real, a: real, b: real, t: real)
    requires c.Valid() && c.switchTime <= a <= b <= StopTime(c) && t == b - a && w <= c.roll
    ensures w * t <= Speed(c, a) - Speed(c, b)
  {
    RollSpeed(c, a);
    RollSpeed(c, b);
    hide Speed, StopTime;
    assert c.roll * t == c.roll * (b - c.switchTime) - c.roll * (a - c.switchTime);
    ProductMonotone(w, c.roll, t);
  }

  /** Until the stop the speed falls at least at the weaker deceleration. */
  lemma FallsAtLeast(c: Profile, w: real, a: real, b: real, t: real)
    requires c.Valid() && 0.0 <= a <= b <= StopTime(c) && t == b - a && w <= c.slide && w <= c.roll
    ensures w * t <= Speed(c, a) - Speed(c, b)
  {
    hide Speed;
    StopAfterSwitch(c);
    if b <= c.switchTime {
      SlideFalls(c, w, a, b, t);
    } else if c.switchTime <= a {
      RollFalls(c, w, a, b, t);
    } else {
      var m := c.switchTime;
      SlideFalls(c, w, a, m, m - a);
      RollFalls(c, w, m, b, b - m);
      hide StopTime;
      assert w * t == w * (m - a) + w * (b - m);
    }
  }

  lemma TailScalar(w: real, x: real, s: real, t: real)
    requires 0.0 <= w && 0.0 <= s && x <= s * t && w * t <= s
    ensures w * x <= s * s
  {
    ProductMonotone(x, s * t, w);
    ProductMonotone(w * t, s, s);
    assert s * t * w == w * t * s;
  }

  /** The way from time a on is at most the square of the speed over the weaker deceleration. */
  lemma TailDistance(c: Profile, w: real, a: real, b: real)
    requires c.Valid() && 0.0 <= a <= b && 0.0 < w <= c.slide && w <= c.roll
    ensures w * (Distance(c, b) - Distance(c, a)) <= Speed(c, a) * Speed(c, a)
  {
    hide Speed, Distance, StopTime;
    var stop := StopTime(c);
    if stop <= a {
      StoppedDistance(c, a);
      StoppedDistance(c, b);
      assert w * 0.0 == 0.0;
      SquareNonNegative(Speed(c, a));
    } else {
      var m := Min(b, stop);
      if stop <= b {
        StoppedDistance(c, b);
      }
      SpeedRange(c, a);
      SpeedRange(c, m);
      FallsAtLeast(c, w, a, m, m - a);
      DistanceBracketTick(c, a, m, m - a);
      hide Min;
      TailScalar(w, Distance(c, b) - Distance(c, a), Speed(c, a), m - a);
    }
  }

  lemma DistanceGrows(c: Profile, a: real, b: real)
    requires c.Valid() && 0.0 <= a <= b
    ensures Distance(c, a) <= Distance(c, b)
  {
    hide Speed, Distance;
    SpeedRange(c, b);
    DistanceBracketTick(c, a, b, b - a);
    ProductNonNegative(Speed(c, b), b - a);
  }

  // --- where a run stops ---------------------------------------------------------------------------------

  /** The body moved through the first k frames only; the next one measured less than the crawl speed. */
  ghost predicate MovedFor(p: Params, v0: real, timesteps: seq<real>, k: nat, travelled: real)
    requires Physical(p)
  {
    && k <= |timesteps|
    && travelled == PostSum(Closed(p, v0), InSeconds(timesteps[..k]))
    && (k < |timesteps| ==> Speed(Closed(p, v0), Sum(InSeconds(timesteps[..k]))) < CRAWL_SPEED)
    && (StillMoving(p, v0, timesteps) ==> k == |timesteps|)
  }

  lemma SpeedInRun(p: Params, v0: real, timesteps: seq<real>)
    requires Physical(p) && 0.0 <= v0 && LongFrames(timesteps)
    ensures 0.0 <= Sum(InSeconds(timesteps)) && 0.0 <= Speed(Closed(p, v0), Sum(InSeconds(timesteps)))
  {
    hide Speed, Sum;
    ProfileOfValid(v0, p.slide, p.roll, p.k);
    InSecondsPositive(timesteps);
    SumNonNegative(InSeconds(timesteps));
    SpeedRange(Closed(p, v0), Sum(InSeconds(timesteps)));
  }

  lemma {:induction false} RunStopsAfter(hyp: (real, real) -> real, p: Params, d: V2, v0: real, timesteps: seq<real>) returns (k: nat)
    requires IsHypot(hyp) && Physical(p) && Dot(d, d) == 1.0 && 0.0 <= v0 && LongFrames(timesteps)
    ensures MovedFor(p, v0, timesteps, k, Frames(hyp, p, Placed(hyp, Scale(v0, d)), timesteps).travelled)
  {
    hide Speed, Frame, Placed, Dot, IsHypot, Scale, Closed, Sum, InSeconds, PostSum;
    FrictionRefinesClosedForm(hyp, p, d, v0, timesteps);
    k := |timesteps|;
    assert timesteps[..k] == timesteps;
    if !StillMoving(p, v0, timesteps) {
      var n := |timesteps| - 1;
      var init, last := timesteps[..n], timesteps[n];
      var b := Frames(hyp, p, Placed(hyp, Scale(v0, d)), init);
      FrictionRefinesClosedForm(hyp, p, d, v0, init);
      if StillMoving(p, v0, init) {
        k := n;
        SpeedInRun(p, v0, init);
        FrameStops(hyp, p, d, Speed(Closed(p, v0), Sum(InSeconds(init))), b, last);
      } else {
        k := RunStopsAfter(hyp, p, d, v0, init);
        assert init[..k] == timesteps[..k];
        StoppedIsOnLine(d, b);
        FrameStops(hyp, p, d, 0.0, b, last);
      }
    }
  }

  lemma {:induction false} EarlierTime(timesteps: seq<real>, k: nat)
    requires LongFrames(timesteps) && k <= |timesteps|
    ensures 0.0 <= Sum(InSeconds(timesteps[..k])) <= Sum(InSeconds(timesteps))
  {
    hide Sum, InSeconds;
    InSecondsPositive(timesteps[..k]);
    SumNonNegative(InSeconds(timesteps[..k]));
    if k == |timesteps| {
      assert timesteps[..k] == timesteps;
    } else {
      var n := |timesteps| - 1;
      EarlierTime(timesteps[..n], k);
      assert timesteps[..n][..k] == timesteps[..k];
      InSecondsStep(timesteps);
      LastTick(InSeconds(timesteps));
    }
  }

  lemma LastTick(ticks: seq<real>)
    requires ticks != [] && AllPositive(ticks)
    ensures Sum(ticks[..|ticks| - 1]) <= Sum(ticks)
  {
  }

  /** covered never exceeds exact; it falls short of it by at most `short` while the ball moves, and
      after the stop by at most what a ball at the crawl speed has left to go besides. */
  predicate Brackets(covered: real, exact: real, short: real, moving: bool, weaker: real) {
    && covered <= exact
    && (moving ==> exact <= covered + short)
    && weaker * (exact - (covered + short)) <= CRAWL_SPEED * CRAWL_SPEED
  }

  lemma TailEnd(w: real, exact: real, moved: real, covered: real, short: real, s: real, stopped: bool, moving: bool)
    requires 0.0 < w && covered <= moved <= exact && moved <= covered + short && 0.0 <= s && w * (exact - moved) <= s * s
    requires if stopped then s <= CRAWL_SPEED && !moving else exact == moved
    ensures Brackets(covered, exact, short, moving, w)
  {
    var over, left := exact - (covered + short), exact - moved;
    if stopped {
      SquareBelow(s, CRAWL_SPEED, CRAWL_SPEED * CRAWL_SPEED);
      LessIsLess(w, over, left, w * left);
    } else {
      LessIsLess(w, over, 0.0, 0.0);
      assert 0.0 <= CRAWL_SPEED * CRAWL_SPEED;
    }
  }

  lemma SquareBelow(s: real, k: real, square: real)
    requires 0.0 <= s <= k && square == k * k
    ensures s * s <= square
  {
    ProductMonotone(s, k, s);
    ProductMonotone(s, k, k);
  }

  lemma LessIsLess(w: real, a: real, b: real, wb: real)
    requires 0.0 < w && a <= b && wb == w * b
    ensures w * a <= wb
  {
    NamedProductNonNegative(w, b - a, w * (b - a));
    assert w * (b - a) == w * b - w * a;
  }

  lemma UntilTheStop(p: Params, v0: real, timesteps: seq<real>, longest: real, k: nat)
    requires Physical(p) && 0.0 <= v0 && LongFrames(timesteps) && k <= |timesteps|
    requires 0.0 <= longest && forall i :: 0 <= i < |timesteps| ==> Seconds(timesteps[i]) <= longest
    ensures var c := Closed(p, v0);
            var t, end := Sum(InSeconds(timesteps[..k])), Sum(InSeconds(timesteps));
            var moved := PostSum(c, InSeconds(timesteps[..k]));
            && c.Valid() && c.slide == p.slide && c.roll == p.roll && 0.0 <= t <= end
            && moved <= Distance(c, t) <= moved + longest * v0 && Distance(c, t) <= Distance(c, end)
  {
    ClosedLaunch(p, v0);
    hide Speed, Distance, Seconds, Closed, ProfileOf, Sum, InSeconds, PostSum, PreSum;
    EarlierTime(timesteps, k);
    PostSumBracket(p, v0, timesteps[..k], longest);
    DistanceGrows(Closed(p, v0), Sum(InSeconds(timesteps[..k])), Sum(InSeconds(timesteps)));
  }

  lemma MovedForBrackets(p: Params, v0: real, timesteps: seq<real>, longest: real, k: nat, covered: real, w: real)
    requires Physical(p) && 0.0 <= v0 && LongFrames(timesteps) && MovedFor(p, v0, timesteps, k, covered)
    requires 0.0 <= longest && forall i :: 0 <= i < |timesteps| ==> Seconds(timesteps[i]) <= longest
    requires 0.0 < w <= p.slide && w <= p.roll
    ensures Brackets(covered, Distance(Closed(p, v0), Sum(InSeconds(timesteps))), longest * v0, StillMoving(p, v0, timesteps), w)
  {
    hide Speed, Distance, Seconds, Closed, Sum, InSeconds, PostSum, StillMoving, Brackets, LongFrames, Profile.Valid;
    var c := Closed(p, v0);
    var t, end := Sum(InSeconds(timesteps[..k])), Sum(InSeconds(timesteps));
    assert k == |timesteps| ==> timesteps[..k] == timesteps;
    UntilTheStop(p, v0, timesteps, longest, k);
    TailDistance(c, w, t, end);
    SpeedRange(c, t);
    hide *;
    TailEnd(w, Distance(c, end), Distance(c, t), covered, longest * v0, Speed(c, t), k < |timesteps|, StillMoving(p, v0, timesteps));
  }

  /** The distance the body covers against the closed form's, over any frames, through the stop. */
  lemma BodyTravelBracket(hyp: (real, real) -> real, p: Params, d: V2, v0: real, timesteps: seq<real>, longest: real)
    requires IsHypot(hyp) && Physical(p) && Dot(d, d) == 1.0 && 0.0 <= v0 && LongFrames(timesteps)
    requires 0.0 <= longest && forall i :: 0 <= i < |timesteps| ==> Seconds(timesteps[i]) <= longest
    ensures var covered := Frames(hyp, p, Placed(hyp, Scale(v0, d)), timesteps).travelled;
            var exact := Distance(Closed(p, v0), Sum(InSeconds(timesteps)));
            Brackets(covered, exact, longest * v0, StillMoving(p, v0, timesteps), Min(p.slide, p.roll))
  {
    assert 0.0 < Min(p.slide, p.roll) && Min(p.slide, p.roll) <= p.slide && Min(p.slide, p.roll) <= p.roll;
    hide *;
    var k := RunStopsAfter(hyp, p, d, v0, timesteps);
    MovedForBrackets(p, v0, timesteps, longest, k, Frames(hyp, p, Placed(hyp, Scale(v0, d)), timesteps).travelled, Min(p.slide, p.roll));
  }
}
