/** One frame of friction from any memory: what it does to a ball that slows down, was pushed, was hit, lies
    still, flies or is parked - and the run of a ball that was pushed. */
module BallPush {
  import opened RealMath
  import opened BallProfile
  import opened BallFriction
  import opened BallKick

  // --- where friction acts ----------------------------------------------------------------------------------

  /** On a parked or airborne ball, in a frame of no length or with both decelerations off, friction neither
      pushes nor remembers anything; everywhere else it does what it does on the ground at the origin. */
  lemma ActsOnGroundOnly(hyp: (real, real) -> real, p: Params, s: Track, x: real, y: real, velocity: V2, timestep: real)
    ensures Friction(hyp, p, s, x, y, velocity, timestep)
         == if 50000.0 < x || 30.0 < y || timestep <= 0.0 || (p.slide <= 0.0 && p.roll <= 0.0) then Outcome(s, V2(0.0, 0.0))
            else Friction(hyp, p, s, 0.0, 21.0, velocity, timestep)
  {
    hide Impact, Slow, Scale, Minus, Seconds;
  }

  /** A frame of 1 to 1000 ms may as well be given in seconds. */
  lemma MillisecondsOrSeconds(hyp: (real, real) -> real, p: Params, s: Track, x: real, y: real, velocity: V2, timestep: real)
    requires 1.0 < timestep <= 1000.0
    ensures Friction(hyp, p, s, x, y, velocity, timestep) == Friction(hyp, p, s, x, y, velocity, timestep / 1000.0)
  {
    assert Seconds(timestep) == Seconds(timestep / 1000.0);
    hide Impact, Slow, Scale, Minus, Seconds;
  }

  // --- a frame that measures a moving ball ----------------------------------------------------------------------

  /** A ball measured at `speed` along d, with any memory. */
  function Measured(track: Track, speed: real, d: V2): Body {
    Body(track, Scale(speed, d), 0.0)
  }

  lemma SlowedFrame(hyp: (real, real) -> real, p: Params, track: Track, speed: real, d: V2, timestep: real, dt: real,
                    launch: real, rolling: bool)
    requires IsHypot(hyp) && p.mass != 0.0 && (0.0 < p.slide || 0.0 < p.roll) && Dot(d, d) == 1.0
    requires 1.0 < timestep && dt == 0.001 * timestep && 20.0 <= speed
    requires !Impact(hyp, Scale(speed, d), Scale(1000.0, track.prev))
    requires if track.launch + 5.0 < speed then launch == speed && !rolling
             else launch == track.launch && rolling == track.rolling
    ensures var b := Frame(hyp, p, Measured(track, speed, d), timestep);
            var slowed := Slow(p, launch, rolling, speed, dt);
            b.velocity == Scale(slowed.0, d) && b.track == Track(MetresOnLine(speed, d), launch, slowed.1)
  {
    SpeedOnLine(hyp, d, speed, Scale(speed, d));
    MilliAndBack(Scale(speed, d));
    assert Seconds(timestep) == dt;
    assert CRAWL_SPEED == 20.0 && 21.0 <= GROUND_HEIGHT && 0.0 <= PARK_LIMIT;
    var slowed := Slow(p, launch, rolling, speed, dt);
    Rescale(d, speed, slowed.0);
    ImpulseUndone(p.mass, Scale(speed, d), Scale(slowed.0, d));
    hide Dot, IsHypot, Scale, Plus, Minus, Impact, Slow, Seconds;
  }

  /** The two phases that lie ahead of a ball at `speed`: it slides down to the switch speed of its launch
      unless it rolls already or is no faster than that. */
  ghost function Ahead(p: Params, launch: real, rolling: bool, speed: real): Profile
    requires Physical(p)
  {
    if rolling || speed <= p.k * launch then Profile(speed, p.slide, p.roll, speed, 0.0)
    else Profile(speed, p.slide, p.roll, p.k * launch, (speed - p.k * launch) / p.slide)
  }

  lemma AheadValid(p: Params, launch: real, rolling: bool, speed: real)
    requires Physical(p) && 0.0 <= launch && 0.0 <= speed
    ensures Ahead(p, launch, rolling, speed).Valid()
  {
    NamedProductNonNegative(p.k, launch, p.k * launch);
    if !rolling && p.k * launch < speed {
      Quotient(speed - p.k * launch, p.slide);
    } else {
      assert p.slide * 0.0 == 0.0;
    }
  }

  lemma SlowIsAhead(p: Params, launch: real, rolling: bool, speed: real, dt: real)
    requires Physical(p) && 0.0 <= launch && 0.0 < speed && 0.0 < dt
    ensures var c := Ahead(p, launch, rolling, speed);
            var r := Slow(p, launch, rolling, speed, dt);
            r.0 == Speed(c, dt) && (r.1 <==> rolling || c.switchTime <= dt)
  {
    var c := Ahead(p, launch, rolling, speed);
    AheadValid(p, launch, rolling, speed);
    AtStart(c);
    assert SwitchSpeed(p, launch) == p.k * launch;
    hide Speed, Roll, SlowTo, SwitchSpeed;
    if rolling {
      SlowRolling(p, SwitchSpeed(p, launch), rolling, speed, dt);
      RollRefines(p, c, 0.0, dt, dt);
    } else if speed <= p.k * launch {
      SlowBelowSwitch(p, SwitchSpeed(p, launch), speed, dt);
      RollRefines(p, c, 0.0, dt, dt);
    } else {
      SlowToRefines(p, c, 0.0, false, dt, dt, SwitchSpeed(p, launch));
    }
  }

  /** A frame that measures at least 20 mm/s and no more than 5 mm/s above the remembered launch speed keeps
      that launch and slows the ball along the phases that lie ahead of it. */
  lemma SlowingBall(hyp: (real, real) -> real, p: Params, track: Track, speed: real, d: V2, timestep: real)
    requires IsHypot(hyp) && Physical(p) && Dot(d, d) == 1.0 && 1.0 < timestep && 20.0 <= speed <= track.launch + 5.0
    requires 0.0 <= track.launch && !Impact(hyp, Scale(speed, d), Scale(1000.0, track.prev))
    ensures var b := Frame(hyp, p, Measured(track, speed, d), timestep);
            var c := Ahead(p, track.launch, track.rolling, speed);
            && b.velocity == Scale(Speed(c, 0.001 * timestep), d)
            && b.track == Track(MetresOnLine(speed, d), track.launch, track.rolling || c.switchTime <= 0.001 * timestep)
  {
    hide *;
    PhysicalActs(p);
    SlowedFrame(hyp, p, track, speed, d, timestep, 0.001 * timestep, track.launch, track.rolling);
    SlowIsAhead(p, track.launch, track.rolling, speed, 0.001 * timestep);
  }

  lemma PhysicalActs(p: Params)
    requires Physical(p)
    ensures p.mass != 0.0 && 0.0 < p.slide && 0.0 < p.roll
  {
  }

  // --- a ball that was pushed -----------------------------------------------------------------------------------

  /** More than 5 mm/s above the remembered launch speed it was pushed: the frame is that of a ball just
      launched at the measured speed, whatever else is remembered. */
  lemma PushedFrame(hyp: (real, real) -> real, p: Params, track: Track, speed: real, d: V2, timestep: real)
    requires IsHypot(hyp) && Physical(p) && Dot(d, d) == 1.0 && 1.0 < timestep && 20.0 <= speed && track.launch + 5.0 < speed
    requires !Impact(hyp, Scale(speed, d), Scale(1000.0, track.prev))
    ensures Frame(hyp, p, Measured(track, speed, d), timestep) == Frame(hyp, p, JustKicked(track.prev, speed, d), timestep)
  {
    hide Dot, IsHypot, Scale, Impact, Slow, Plus, Friction;
    SlowedFrame(hyp, p, track, speed, d, timestep, 0.001 * timestep, speed, false);
    SlowedFrame(hyp, p, Track(track.prev, speed, false), speed, d, timestep, 0.001 * timestep, speed, false);
  }

  lemma {:induction false} PushedRun(hyp: (real, real) -> real, p: Params, track: Track, speed: real, d: V2,
                                     timesteps: seq<real>)
    requires IsHypot(hyp) && Physical(p) && Dot(d, d) == 1.0 && LongFrames(timesteps) && timesteps != []
    requires 20.0 <= speed && track.launch + 5.0 < speed && !Impact(hyp, Scale(speed, d), Scale(1000.0, track.prev))
    ensures Frames(hyp, p, Measured(track, speed, d), timesteps) == Frames(hyp, p, JustKicked(track.prev, speed, d), timesteps)
  {
    hide Frame, Dot, IsHypot, Scale, Impact, Measured, JustKicked;
    var n := |timesteps| - 1;
    if n == 0 {
      PushedFrame(hyp, p, track, speed, d, timesteps[0]);
      assert timesteps[..0] == [];
    } else {
      PushedRun(hyp, p, track, speed, d, timesteps[..n]);
    }
  }

  /** A ball that something pushed is launched anew: from any memory, a frame that measures it more than
      5 mm/s above the launch speed starts the closed form of the measured speed, and the run follows it. */
  lemma PushedBallFollows(hyp: (real, real) -> real, p: Params, track: Track, speed: real, d: V2, timesteps: seq<real>)
    requires IsHypot(hyp) && Physical(p) && Dot(d, d) == 1.0 && LongFrames(timesteps) && timesteps != []
    requires 20.0 <= speed && track.launch + 5.0 < speed && !Impact(hyp, Scale(speed, d), Scale(1000.0, track.prev))
    ensures Follows(p, d, speed, timesteps, Frames(hyp, p, Measured(track, speed, d), timesteps))
    ensures var b := Frame(hyp, p, Measured(track, speed, d), timesteps[0]);
            b.track.launch == speed && b.velocity == Scale(Speed(Closed(p, speed), 0.001 * timesteps[0]), d)
  {
    hide *;
    PushedRun(hyp, p, track, speed, d, timesteps);
    GentleKick(hyp, p, d, speed, track.prev, timesteps);
    LongFirst(timesteps);
    PushedStart(hyp, p, track, speed, d, timesteps[0]);
  }

  lemma LongFirst(timesteps: seq<real>)
    requires LongFrames(timesteps) && timesteps != []
    ensures 1.0 < timesteps[0]
  {
  }

  lemma PushedStart(hyp: (real, real) -> real, p: Params, track: Track, speed: real, d: V2, timestep: real)
    requires IsHypot(hyp) && Physical(p) && Dot(d, d) == 1.0 && 1.0 < timestep && 20.0 <= speed && track.launch + 5.0 < speed
    requires !Impact(hyp, Scale(speed, d), Scale(1000.0, track.prev))
    ensures var b := Frame(hyp, p, Measured(track, speed, d), timestep);
            b.track.launch == speed && b.velocity == Scale(Speed(Closed(p, speed), 0.001 * timestep), d)
  {
    var c := Closed(p, speed);
    ProfileOfValid(speed, p.slide, p.roll, p.k);
    AtStart(c);
    assert c.v0 == speed;
    hide Dot, IsHypot, Scale, Impact, Slow, Speed, Closed;
    SlowedFrame(hyp, p, track, speed, d, timestep, 0.001 * timestep, speed, false);
    SlowRefines(p, c, 0.0, false, 0.001 * timestep);
  }

  // --- a ball that was hit or crawls ------------------------------------------------------------------------------

  /** The test for an impact, on speeds in mm/s: both above 200, and the direction reversed or the speed grown
      by half. */
  ghost predicate Hit(hyp: (real, real) -> real, v: V2, before: V2) {
    && 200.0 < hyp(before.x, before.y) && 200.0 < hyp(v.x, v.y)
    && (Dot(v, before) < 0.0 || 1.5 * hyp(before.x, before.y) < hyp(v.x, v.y))
  }

  lemma HitIs(hyp: (real, real) -> real, v: V2, before: V2)
    ensures Hit(hyp, v, before) <==> Impact(hyp, v, before)
  {
    hide Dot;
  }

  lemma HitFrame(hyp: (real, real) -> real, p: Params, track: Track, speed: real, d: V2, timestep: real)
    requires IsHypot(hyp) && Physical(p) && Dot(d, d) == 1.0 && 1.0 < timestep && 0.0 <= speed
    requires Impact(hyp, Scale(speed, d), Scale(1000.0, track.prev))
    ensures var b := Frame(hyp, p, Measured(track, speed, d), timestep);
            b.velocity == Scale(speed, d) && b.track == Track(MetresOnLine(speed, d), speed, false)
  {
    MilliAndBack(Scale(speed, d));
    SpeedOnLine(hyp, d, speed, Scale(speed, d));
    NoPush(p.mass, Scale(speed, d));
    hide Scale, Dot, IsHypot, Plus, Minus, Slow, Seconds;
  }

  lemma SlowsDown(p: Params, launch: real, rolling: bool, speed: real, dt: real)
    requires Physical(p) && 0.0 <= launch && 0.0 < speed && 0.0 < dt
    ensures Slow(p, launch, rolling, speed, dt).0 < speed
  {
    var c := Ahead(p, launch, rolling, speed);
    AheadValid(p, launch, rolling, speed);
    SlowIsAhead(p, launch, rolling, speed, dt);
    assert c.v0 == speed;
    hide Slow, Speed;
    SlowedAfter(c, dt);
  }

  /** Friction leaves a moving ball its velocity exactly when it was hit. The rebound is then remembered as a
      launch that starts sliding. */
  lemma SparedExactlyWhenHit(hyp: (real, real) -> real, p: Params, track: Track, speed: real, d: V2, timestep: real)
    requires IsHypot(hyp) && Physical(p) && Dot(d, d) == 1.0 && 1.0 < timestep && 0.0 < speed && 0.0 <= track.launch
    ensures var b := Frame(hyp, p, Measured(track, speed, d), timestep);
            && (b.velocity == Scale(speed, d) <==> Hit(hyp, Scale(speed, d), Scale(1000.0, track.prev)))
            && (b.velocity == Scale(speed, d) ==> b.track == Track(MetresOnLine(speed, d), speed, false))
  {
    HitIs(hyp, Scale(speed, d), Scale(1000.0, track.prev));
    hide *;
    PhysicalActs(p);
    if Impact(hyp, Scale(speed, d), Scale(1000.0, track.prev)) {
      HitFrame(hyp, p, track, speed, d, timestep);
    } else if speed < 20.0 {
      CrawlingBall(hyp, p, track, speed, d, timestep);
      NotAtRest(d, speed);
    } else if track.launch + 5.0 < speed {
      SlowedFrame(hyp, p, track, speed, d, timestep, 0.001 * timestep, speed, false);
      SlowsDown(p, speed, false, speed, 0.001 * timestep);
      Slower(d, speed, Slow(p, speed, false, speed, 0.001 * timestep).0);
    } else {
      SlowedFrame(hyp, p, track, speed, d, timestep, 0.001 * timestep, track.launch, track.rolling);
      SlowsDown(p, track.launch, track.rolling, speed, 0.001 * timestep);
      Slower(d, speed, Slow(p, track.launch, track.rolling, speed, 0.001 * timestep).0);
    }
  }

  lemma Slower(d: V2, speed: real, slowed: real)
    requires Dot(d, d) == 1.0 && slowed < speed
    ensures Scale(slowed, d) != Scale(speed, d)
  {
    hide Dot, Scale;
    if Scale(slowed, d) == Scale(speed, d) {
      SpeedOfPoint(d, slowed, speed);
    }
  }

  lemma NotAtRest(d: V2, speed: real)
    requires Dot(d, d) == 1.0 && 0.0 < speed
    ensures Scale(speed, d) != V2(0.0, 0.0)
  {
    assert V2(0.0, 0.0) == Scale(0.0, d);
    Slower(d, speed, 0.0);
  }

  /** A frame that measures less than 20 mm/s stops the ball and forgets its launch. */
  lemma CrawlingBall(hyp: (real, real) -> real, p: Params, track: Track, speed: real, d: V2, timestep: real)
    requires IsHypot(hyp) && Physical(p) && Dot(d, d) == 1.0 && 1.0 < timestep && 0.0 <= speed < 20.0
    ensures var b := Frame(hyp, p, Measured(track, speed, d), timestep);
            b.velocity == V2(0.0, 0.0) && b.track.launch == 0.0 && b.track.rolling
  {
    assert CRAWL_SPEED == 20.0;
    hide Dot, IsHypot, Scale, Frame;
    FrameStops(hyp, p, d, speed, Measured(track, speed, d), timestep);
  }

  // --- one phase only -----------------------------------------------------------------------------------------------

  /** With the slide switched off every frame takes the rolling deceleration off the speed, and the phase is
      not touched. */
  lemma RollingOnly(hyp: (real, real) -> real, p: Params, track: Track, speed: real, d: V2, timestep: real, slowed: real)
    requires IsHypot(hyp) && p.mass != 0.0 && p.slide <= 0.0 < p.roll && Dot(d, d) == 1.0 && 1.0 < timestep && 20.0 <= speed
    requires speed <= track.launch + 5.0 && !Impact(hyp, Scale(speed, d), Scale(1000.0, track.prev))
    requires slowed == Max(0.0, speed - p.roll * (0.001 * timestep))
    ensures var b := Frame(hyp, p, Measured(track, speed, d), timestep);
            b.velocity == Scale(slowed, d) && b.track.rolling == track.rolling
  {
    RollOn(p, track.launch, track.rolling, speed, 0.001 * timestep, slowed);
    hide *;
    SlowedFrame(hyp, p, track, speed, d, timestep, 0.001 * timestep, track.launch, track.rolling);
  }

  lemma RollOn(p: Params, launch: real, rolling: bool, speed: real, dt: real, slowed: real)
    requires p.slide <= 0.0 < p.roll && 0.0 < dt && slowed == Max(0.0, speed - p.roll * dt)
    ensures Slow(p, launch, rolling, speed, dt) == (slowed, rolling)
  {
    hide Roll;
    SlowRolling(p, SwitchSpeed(p, launch), rolling, speed, dt);
    RollTo(p, speed, dt, slowed);
  }

  lemma RollTo(p: Params, speed: real, dt: real, slowed: real)
    requires 0.0 < p.roll && 0.0 < dt && slowed == Max(0.0, speed - p.roll * dt)
    ensures Roll(p, speed, dt) == slowed
  {
  }

  /** With the roll switched off a sliding ball slows down to the switch speed and keeps it. */
  lemma SlidingOnly(hyp: (real, real) -> real, p: Params, track: Track, speed: real, d: V2, timestep: real,
                    switch: real, slowed: real)
    requires IsHypot(hyp) && p.mass != 0.0 && p.roll <= 0.0 < p.slide && Dot(d, d) == 1.0 && 1.0 < timestep && 20.0 <= speed
    requires speed <= track.launch + 5.0 && !Impact(hyp, Scale(speed, d), Scale(1000.0, track.prev))
    requires switch == p.k * track.launch
    requires slowed == if track.rolling || speed <= switch then speed else Max(switch, speed - p.slide * (0.001 * timestep))
    ensures var b := Frame(hyp, p, Measured(track, speed, d), timestep);
            b.velocity == Scale(slowed, d)
  {
    SlideOn(p, track.launch, track.rolling, speed, 0.001 * timestep, switch, slowed);
    hide *;
    SlowedFrame(hyp, p, track, speed, d, timestep, 0.001 * timestep, track.launch, track.rolling);
  }

  lemma SlideOn(p: Params, launch: real, rolling: bool, speed: real, dt: real, switch: real, slowed: real)
    requires p.roll <= 0.0 < p.slide && 0.0 < dt && switch == p.k * launch
    requires slowed == if rolling || speed <= switch then speed else Max(switch, speed - p.slide * dt)
    ensures Slow(p, launch, rolling, speed, dt).0 == slowed
  {
    assert SwitchSpeed(p, launch) == switch;
    SlideTo(p, SwitchSpeed(p, launch), rolling, speed, dt, slowed);
    hide SlowTo, SwitchSpeed, Max;
  }

  lemma SlideTo(p: Params, switch: real, rolling: bool, speed: real, dt: real, slowed: real)
    requires p.roll <= 0.0 < p.slide && 0.0 < dt
    requires slowed == if rolling || speed <= switch then speed else Max(switch, speed - p.slide * dt)
    ensures SlowTo(p, switch, rolling, speed, dt).0 == slowed
  {
    if !rolling && switch < speed {
      var q := (speed - switch) / p.slide;
      Quotient(speed - switch, p.slide);
      if dt < q {
        ProductStrict(p.slide, dt, q);
      } else {
        ProductMonotone(q, dt, p.slide);
      }
    }
  }
}
