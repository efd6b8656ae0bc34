/** Ground friction of the ball (applyBallFriction): a frame-by-frame stepper that switches from
    sliding to rolling inside a frame. It refines the closed form of BallProfile. */
module BallFriction {
  import opened RealMath
  import opened BallProfile

  const PARK_LIMIT := 50000.0
  const GROUND_HEIGHT := 30.0
  const CRAWL_SPEED := 20.0

  /** Decelerations [mm/s^2], switch ratio and ball mass [kg]. */
  datatype Params = Params(slide: real, roll: real, k: real, mass: real)

  /** What the stepper remembers: the velocity of the previous frame [m/s, scene axes (x, z)], the
      launch speed [mm/s] and whether the ball already rolls. */
  datatype Track = Track(prev: V2, launch: real, rolling: bool)

  /** New memory and the impulse to apply to the body [kg mm/s]. */
  datatype Outcome = Outcome(track: Track, impulse: V2)

  const NO_IMPULSE := V2(0.0, 0.0)

  /** Length of a frame in seconds; a timestep of at most 1 is taken to be in seconds already. */
  function Seconds(timestep: real): real {
    if timestep > 1.0 then timestep / 1000.0 else timestep
  }

  predicate Impact(hyp: (real, real) -> real, v: V2, before: V2) {
    var speed := hyp(v.x, v.y);
    var prevSpeed := hyp(before.x, before.y);
    prevSpeed > 200.0 && speed > 200.0 && (Dot(v, before) < 0.0 || speed > 1.5 * prevSpeed)
  }

  /** Speed and phase after dt seconds from a given speed in a given phase. */
  function Slow(p: Params, launch: real, rolling: bool, speed: real, dt: real): (real, bool) {
    SlowTo(p, SwitchSpeed(p, launch), rolling, speed, dt)
  }

  function SwitchSpeed(p: Params, launch: real): real {
    p.k * launch
  }

  function SlowTo(p: Params, switchSpeed: real, rolling: bool, speed: real, dt: real): (real, bool) {
    if !rolling && p.slide > 0.0 then
      var slideTime := if speed > switchSpeed then Min(dt, (speed - switchSpeed) / p.slide) else 0.0;
      var slid := if speed > switchSpeed then speed - p.slide * slideTime else speed;
      (Roll(p, slid, dt - slideTime), slid <= switchSpeed)
    else
      (Roll(p, speed, dt), rolling)
  }

  function Roll(p: Params, speed: real, remaining: real): real {
    if remaining > 0.0 && p.roll > 0.0 then Max(0.0, speed - p.roll * remaining) else speed
  }

  /** One frame: the ball body is at (x, height y) and was measured at `velocity` [m/s]. */
  function Friction(hyp: (real, real) -> real, p: Params, s: Track, x: real, y: real, velocity: V2, timestep: real): Outcome {
    if (p.slide <= 0.0 && p.roll <= 0.0) || timestep <= 0.0 || x > PARK_LIMIT || y > GROUND_HEIGHT then
      Outcome(s, NO_IMPULSE)
    else
      var v := Scale(1000.0, velocity);
      var speed := hyp(v.x, v.y);
      if Impact(hyp, v, Scale(1000.0, s.prev)) then
        Outcome(Track(velocity, speed, false), NO_IMPULSE)
      else if speed < CRAWL_SPEED then
        Outcome(Track(velocity, 0.0, true), if speed > 0.0 then Scale(-p.mass, v) else NO_IMPULSE)
      else
        var relaunched := speed > s.launch + 5.0;
        var launch := if relaunched then speed else s.launch;
        var slowed := Slow(p, launch, if relaunched then false else s.rolling, speed, Seconds(timestep));
        Outcome(Track(velocity, launch, slowed.1), Scale(p.mass, Minus(Scale(slowed.0 / speed, v), v)))
  }

  // --- an ideal body under this friction --------------------------------------------------------

  /** A grounded ball that keeps, between frames, exactly the velocity it was left with, so that the
      next frame measures it. Velocity in mm/s, distance along its line in mm. */
  datatype Body = Body(track: Track, velocity: V2, travelled: real)

  function Placed(hyp: (real, real) -> real, velocity: V2): Body {
    Body(Track(V2(0.0, 0.0), hyp(velocity.x, velocity.y), false), velocity, 0.0)
  }

  function Frame(hyp: (real, real) -> real, p: Params, b: Body, timestep: real): Body
    requires p.mass != 0.0
  {
    var o := Friction(hyp, p, b.track, 0.0, 21.0, Scale(0.001, b.velocity), timestep);
    var velocity := Plus(b.velocity, Scale(1.0 / p.mass, o.impulse));
    Body(o.track, velocity, b.travelled + hyp(velocity.x, velocity.y) * Seconds(timestep))
  }

  function Frames(hyp: (real, real) -> real, p: Params, b: Body, timesteps: seq<real>): Body
    requires p.mass != 0.0
  {
    if timesteps == [] then b
    else Frame(hyp, p, Frames(hyp, p, b, timesteps[..|timesteps| - 1]), timesteps[|timesteps| - 1])
  }

  /** Frame lengths in seconds. */
  function InSeconds(timesteps: seq<real>): seq<real> {
    seq(|timesteps|, i requires 0 <= i < |timesteps| => Seconds(timesteps[i]))
  }

  // --- one frame in one dimension -----------------------------------------------------------------

  ghost predicate Physical(p: Params) {
    0.0 < p.slide && 0.0 < p.roll && 0.0 <= p.k <= 1.0 && 0.0 < p.mass
  }

  ghost function Closed(p: Params, v0: real): Profile
    requires Physical(p)
  {
    ProfileOf(v0, p.slide, p.roll, p.k)
  }

  /** The phase flag agrees with the time since the launch. */
  ghost predicate PhaseAt(c: Profile, t: real, rolling: bool) {
    (rolling ==> c.switchTime <= t) && (!rolling ==> t <= c.switchTime)
  }

  lemma RollRefines(p: Params, c: Profile, t: real, dt: real, end: real)
    requires Physical(p) && c.Valid() && c.roll == p.roll && 0.0 <= dt && c.switchTime <= t && end == t + dt
    ensures Roll(p, Speed(c, t), dt) == Speed(c, end)
  {
    RollSpeedIs(c, t, t - c.switchTime);
    RollSpeedIs(c, end, end - c.switchTime);
    hide Speed;
    var u := t - c.switchTime;
    assert p.roll * (u + dt) == p.roll * u + p.roll * dt;
    NamedProductNonNegative(p.roll, dt, p.roll * dt);
    assert end - c.switchTime == u + dt;
  }

  lemma SlideRefines(c: Profile, slide: real, t: real)
    requires c.Valid() && 0.0 <= t <= c.switchTime && slide == c.slide
    ensures (Speed(c, t) - c.switchSpeed) / slide == c.switchTime - t
    ensures c.switchSpeed < Speed(c, t) <==> t < c.switchTime
    ensures c.switchSpeed <= Speed(c, t)
  {
    SlideSpeed(c, t);
    hide Speed;
    var left := c.switchTime - t;
    assert Speed(c, t) - c.switchSpeed == slide * left by {
      assert slide * left == slide * c.switchTime - slide * t;
    }
    DivMul(slide, left);
    if t < c.switchTime {
      NamedProductPositive(slide, left, Speed(c, t) - c.switchSpeed);
    } else {
      assert slide * left == 0.0;
    }
  }

  lemma SlideFor(c: Profile, slide: real, t: real, s: real, end: real)
    requires c.Valid() && slide == c.slide && 0.0 <= t && 0.0 <= s && end == t + s <= c.switchTime
    ensures Speed(c, t) - slide * s == Speed(c, end)
  {
    SlideSpeed(c, t);
    SlideSpeed(c, end);
    hide Speed;
    assert slide * (t + s) == slide * t + slide * s;
  }

  lemma SlowAboveSwitch(p: Params, switchSpeed: real, speed: real, dt: real, slideTime: real, slid: real, rest: real)
    requires 0.0 < p.slide && switchSpeed < speed
    requires slideTime == Min(dt, (speed - switchSpeed) / p.slide)
    requires slid == speed - p.slide * slideTime && rest == dt - slideTime
    ensures SlowTo(p, switchSpeed, false, speed, dt) == (Roll(p, slid, rest), slid <= switchSpeed)
  {
    hide Roll;
  }

  lemma SlowBelowSwitch(p: Params, switchSpeed: real, speed: real, dt: real)
    requires 0.0 < p.slide && speed <= switchSpeed
    ensures SlowTo(p, switchSpeed, false, speed, dt) == (Roll(p, speed, dt), true)
  {
    hide Roll;
  }

  lemma MinIs(x: real, y: real)
    ensures Min(x, y) == if x < y then x else y
  {
  }

  lemma SlowWhileSliding(p: Params, c: Profile, t: real, dt: real, end: real, switchSpeed: real)
    requires Physical(p) && c.Valid() && c.slide == p.slide && c.roll == p.roll && switchSpeed == c.switchSpeed
    requires 0.0 <= t <= c.switchTime && 0.0 < dt && end == t + dt
    ensures SlowTo(p, switchSpeed, false, Speed(c, t), dt) == (Speed(c, end), c.switchTime <= end)
  {
    hide Speed, Roll, SlowTo, Min;
    SlideRefines(c, p.slide, t);
    var left := c.switchTime - t;
    if left == 0.0 {
      SlowBelowSwitch(p, switchSpeed, Speed(c, t), dt);
      RollRefines(p, c, t, dt, end);
    } else if left <= dt {
      SlideFor(c, p.slide, t, left, c.switchTime);
      SlideRefines(c, p.slide, c.switchTime);
      MinIs(dt, (Speed(c, t) - switchSpeed) / p.slide);
      SlowAboveSwitch(p, switchSpeed, Speed(c, t), dt, left, Speed(c, c.switchTime), dt - left);
      RollRefines(p, c, c.switchTime, dt - left, end);
    } else {
      SlideFor(c, p.slide, t, dt, end);
      MinIs(dt, (Speed(c, t) - switchSpeed) / p.slide);
      SlowAboveSwitch(p, switchSpeed, Speed(c, t), dt, dt, Speed(c, end), 0.0);
      SlideRefines(c, p.slide, end);
      NoTimeToRoll(p, Speed(c, end));
    }
  }

  /** One frame of the stepper walks along the closed form, through the switch when the frame
      contains it. */
  lemma SlowRefines(p: Params, c: Profile, t: real, rolling: bool, dt: real)
    requires Physical(p) && 0.0 <= c.v0 && 0.0 <= t && 0.0 < dt && c == Closed(p, c.v0)
    requires PhaseAt(c, t, rolling)
    ensures var r := Slow(p, c.v0, rolling, Speed(c, t), dt);
            r.0 == Speed(c, t + dt) && (r.1 <==> c.switchTime <= t + dt)
  {
    hide Speed, Roll, SlowTo, Closed, ProfileOf, SwitchSpeed;
    ClosedIs(p, c);
    SlowToRefines(p, c, t, rolling, dt, t + dt, SwitchSpeed(p, c.v0));
  }

  lemma SlowToRefines(p: Params, c: Profile, t: real, rolling: bool, dt: real, end: real, switchSpeed: real)
    requires Physical(p) && c.Valid() && c.slide == p.slide && c.roll == p.roll && switchSpeed == c.switchSpeed
    requires 0.0 <= t && 0.0 < dt && end == t + dt && PhaseAt(c, t, rolling)
    ensures var r := SlowTo(p, switchSpeed, rolling, Speed(c, t), dt);
            r.0 == Speed(c, end) && (r.1 <==> c.switchTime <= end)
  {
    hide Speed, Roll, SlowTo;
    if rolling {
      SlowRolling(p, switchSpeed, rolling, Speed(c, t), dt);
      RollRefines(p, c, t, dt, end);
    } else {
      SlowWhileSliding(p, c, t, dt, end, switchSpeed);
    }
  }

  lemma ClosedIs(p: Params, c: Profile)
    requires Physical(p) && 0.0 <= c.v0 && c == Closed(p, c.v0)
    ensures c.Valid() && c.slide == p.slide && c.roll == p.roll && c.switchSpeed == SwitchSpeed(p, c.v0)
  {
    ProfileOfValid(c.v0, p.slide, p.roll, p.k);
  }

  lemma SlowRolling(p: Params, switchSpeed: real, rolling: bool, speed: real, dt: real)
    requires rolling || p.slide <= 0.0
    ensures SlowTo(p, switchSpeed, rolling, speed, dt) == (Roll(p, speed, dt), rolling)
  {
    hide Roll;
  }

  lemma RollIs(p: Params, roll: real, speed: real, remaining: real)
    requires roll == p.roll
    ensures Roll(p, speed, remaining) == if remaining > 0.0 && roll > 0.0 then Max(0.0, speed - roll * remaining) else speed
  {
    SameFactor(remaining, roll, p.roll);
  }

  lemma NoTimeToRoll(p: Params, speed: real)
    ensures Roll(p, speed, 0.0) == speed
  {
  }

  // --- one frame of the ideal body ----------------------------------------------------------------

  /** The memory holds a velocity of this line that was at least as fast, or nothing yet. */
  ghost predicate SlowingAlong(track: Track, d: V2, speed: real) {
    exists before: real :: 0.0 <= before && (before == 0.0 || speed <= before) && track.prev == MetresOnLine(before, d)
  }

  /** A velocity of `speed` mm/s along d, in m/s. */
  ghost function MetresOnLine(speed: real, d: V2): V2 {
    Scale(0.001, Scale(speed, d))
  }

  lemma SpeedOnLine(hyp: (real, real) -> real, d: V2, speed: real, v: V2)
    requires IsHypot(hyp) && Dot(d, d) == 1.0 && 0.0 <= speed && v == Scale(speed, d)
    ensures hyp(v.x, v.y) == speed
  {
    HypotIs(hyp, d.x, d.y, 1.0);
    HypotScale(hyp, speed, d, v.x, v.y);
  }

  lemma MilliAndBack(v: V2)
    ensures Scale(1000.0, Scale(0.001, v)) == v
  {
  }

  lemma ScaleScale(a: real, b: real, d: V2)
    ensures Scale(a, Scale(b, d)) == Scale(a * b, d)
  {
    assert a * (b * d.x) == (a * b) * d.x;
    assert a * (b * d.y) == (a * b) * d.y;
  }

  lemma DotOnLine(d: V2, a: real, b: real)
    requires Dot(d, d) == 1.0
    ensures Dot(Scale(a, d), Scale(b, d)) == a * b
  {
    assert (a * d.x) * (b * d.x) == (a * b) * (d.x * d.x);
    assert (a * d.y) * (b * d.y) == (a * b) * (d.y * d.y);
    assert (a * b) * (d.x * d.x) + (a * b) * (d.y * d.y) == (a * b) * Dot(d, d);
  }

  /** A ball that only ever slows down along a line shows no impact. */
  lemma NoSpuriousImpact(hyp: (real, real) -> real, d: V2, track: Track, speed: real)
    requires IsHypot(hyp) && Dot(d, d) == 1.0 && 0.0 <= speed && SlowingAlong(track, d, speed)
    ensures !Impact(hyp, Scale(speed, d), Scale(1000.0, track.prev))
  {
    hide Dot, Scale, IsHypot;
    var before: real :| 0.0 <= before && (before == 0.0 || speed <= before) && track.prev == MetresOnLine(before, d);
    MilliAndBack(Scale(before, d));
    SpeedOnLine(hyp, d, speed, Scale(speed, d));
    SpeedOnLine(hyp, d, before, Scale(before, d));
    DotOnLine(d, speed, before);
    NamedProductNonNegative(speed, before, speed * before);
    SlowerIsNoImpact(hyp, Scale(speed, d), Scale(before, d), speed, before);
  }

  lemma SlowerIsNoImpact(hyp: (real, real) -> real, v: V2, w: V2, speed: real, before: real)
    requires hyp(v.x, v.y) == speed && hyp(w.x, w.y) == before && 0.0 <= Dot(v, w)
    requires 0.0 <= before && (before == 0.0 || speed <= before)
    ensures !Impact(hyp, v, w)
  {
    hide Dot;
  }

  lemma ImpulseUndone(mass: real, v: V2, w: V2)
    requires mass != 0.0
    ensures Plus(v, Scale(1.0 / mass, Scale(mass, Minus(w, v)))) == w
  {
    ImpulseAxis(mass, v.x, w.x);
    ImpulseAxis(mass, v.y, w.y);
  }

  lemma ImpulseAxis(mass: real, v: real, w: real)
    requires mass != 0.0
    ensures v + (1.0 / mass) * (mass * (w - v)) == w
  {
    var i := 1.0 / mass;
    assert i * mass == 1.0;
    assert i * (mass * (w - v)) == (i * mass) * (w - v);
  }

  lemma StopUndone(mass: real, v: V2)
    requires mass != 0.0
    ensures Plus(v, Scale(1.0 / mass, Scale(-mass, v))) == V2(0.0, 0.0)
  {
    StopAxis(mass, v.x);
    StopAxis(mass, v.y);
  }

  lemma StopAxis(mass: real, v: real)
    requires mass != 0.0
    ensures v + (1.0 / mass) * (-mass * v) == 0.0
  {
    var i := 1.0 / mass;
    assert i * mass == 1.0;
    assert i * (-mass * v) == -((i * mass) * v);
  }

  lemma Rescale(d: V2, speed: real, slowed: real)
    requires 0.0 < speed
    ensures Scale(slowed / speed, Scale(speed, d)) == Scale(slowed, d)
  {
    ScaleScale(slowed / speed, speed, d);
    Quotient(slowed, speed);
  }

  /** The state of a body that is still on the closed form at time t since its launch. */
  ghost predicate OnLineAt(p: Params, d: V2, c: Profile, t: real, b: Body)
    requires Physical(p)
  {
    && 0.0 <= c.v0 && c == Closed(p, c.v0) && 0.0 <= t
    && b.velocity == Scale(Speed(c, t), d) && b.track.launch == c.v0
    && PhaseAt(c, t, b.track.rolling) && SlowingAlong(b.track, d, Speed(c, t))
  }

  lemma FrictionRefines(hyp: (real, real) -> real, p: Params, d: V2, c: Profile, t: real, b: Body, timestep: real, dt: real)
    requires IsHypot(hyp) && Physical(p) && Dot(d, d) == 1.0 && 1.0 < timestep && dt == Seconds(timestep)
    requires OnLineAt(p, d, c, t, b) && CRAWL_SPEED <= Speed(c, t)
    ensures var o := Friction(hyp, p, b.track, 0.0, 21.0, Scale(0.001, b.velocity), timestep);
            && o.track.prev == MetresOnLine(Speed(c, t), d) && o.track.launch == c.v0
            && (o.track.rolling <==> c.switchTime <= t + dt)
            && Plus(b.velocity, Scale(1.0 / p.mass, o.impulse)) == Scale(Speed(c, t + dt), d)
  {
    hide Speed, Slow, Impact, Dot, Scale, Plus, Minus, IsHypot, SlowingAlong, Seconds, PhaseAt, Closed;
    var speed := Speed(c, t);
    SecondsPositive(timestep);
    SpeedOnLine(hyp, d, speed, b.velocity);
    MilliAndBack(b.velocity);
    NoSpuriousImpact(hyp, d, b.track, speed);
    SlowRefines(p, c, t, b.track.rolling, dt);
    Rescale(d, speed, Speed(c, t + dt));
    ImpulseUndone(p.mass, b.velocity, Scale(Speed(c, t + dt), d));
    NotRelaunched(c, p, t);
  }

  lemma NotRelaunched(c: Profile, p: Params, t: real)
    requires Physical(p) && 0.0 <= c.v0 && c == Closed(p, c.v0) && 0.0 <= t
    ensures 0.0 <= Speed(c, t) <= c.v0
  {
    hide Speed;
    ProfileOfValid(c.v0, p.slide, p.roll, p.k);
    SpeedRange(c, t);
  }

  /** A frame that measures at least the crawl speed moves the body along the closed form. */
  lemma FrameRefines(hyp: (real, real) -> real, p: Params, d: V2, c: Profile, t: real, b: Body, timestep: real, dt: real)
    requires IsHypot(hyp) && Physical(p) && Dot(d, d) == 1.0 && 1.0 < timestep && dt == Seconds(timestep)
    requires OnLineAt(p, d, c, t, b) && CRAWL_SPEED <= Speed(c, t)
    ensures var b' := Frame(hyp, p, b, timestep);
            && OnLineAt(p, d, c, t + dt, b')
            && (b'.track.rolling <==> c.switchTime <= t + dt)
            && b'.travelled == b.travelled + Speed(c, t + dt) * dt
  {
    hide Speed, Friction, Dot, Scale, Plus, IsHypot, Seconds, Closed;
    SecondsPositive(timestep);
    FrictionRefines(hyp, p, d, c, t, b, timestep, dt);
    NotRelaunched(c, p, t);
    NotRelaunched(c, p, t + dt);
    SpeedFalls(c, p, t, t + dt);
    SpeedOnLine(hyp, d, Speed(c, t + dt), Scale(Speed(c, t + dt), d));
  }

  lemma SpeedFalls(c: Profile, p: Params, a: real, b: real)
    requires Physical(p) && 0.0 <= c.v0 && c == Closed(p, c.v0) && 0.0 <= a <= b
    ensures Speed(c, b) <= Speed(c, a)
  {
    hide Speed;
    ProfileOfValid(c.v0, p.slide, p.roll, p.k);
    DistanceBracketTick(c, a, b, b - a);
  }

  lemma SecondsPositive(timestep: real)
    requires 1.0 < timestep
    ensures 0.0 < Seconds(timestep)
  {
  }

  ghost predicate Stopped(b: Body) {
    b.velocity == V2(0.0, 0.0) && b.track.launch == 0.0 && b.track.rolling
  }

  /** A frame that measures less than the crawl speed stops the ball. */
  lemma FrameStops(hyp: (real, real) -> real, p: Params, d: V2, speed: real, b: Body, timestep: real)
    requires IsHypot(hyp) && Physical(p) && Dot(d, d) == 1.0 && 1.0 < timestep
    requires 0.0 <= speed < CRAWL_SPEED && b.velocity == Scale(speed, d)
    ensures Stopped(Frame(hyp, p, b, timestep))
    ensures Frame(hyp, p, b, timestep).travelled == b.travelled
  {
    MilliAndBack(b.velocity);
    hide Dot, Scale, IsHypot, Plus, Minus, Seconds;
    SecondsPositive(timestep);
    SpeedOnLine(hyp, d, speed, b.velocity);
    HypotIs(hyp, 0.0, 0.0, 0.0);
    StopUndone(p.mass, b.velocity);
    if speed == 0.0 {
      RestingLine(d, b.velocity, p.mass);
    }
    assert 0.0 * Seconds(timestep) == 0.0;
  }

  lemma RestingLine(d: V2, v: V2, mass: real)
    requires v == Scale(0.0, d)
    ensures v == V2(0.0, 0.0) && Plus(v, Scale(1.0 / mass, NO_IMPULSE)) == V2(0.0, 0.0)
    requires mass != 0.0
  {
  }

  // --- whole runs -----------------------------------------------------------------------------------

  ghost predicate LongFrames(timesteps: seq<real>) {
    forall i :: 0 <= i < |timesteps| ==> 1.0 < timesteps[i]
  }

  /** Time since the launch at the start of the last frame. */
  ghost function LastStart(timesteps: seq<real>): real
    requires timesteps != []
  {
    Sum(InSeconds(timesteps[..|timesteps| - 1]))
  }

  ghost predicate OnProfile(p: Params, d: V2, v0: real, timesteps: seq<real>, b: Body)
    requires Physical(p)
  {
    var c := Closed(p, v0);
    var t := Sum(InSeconds(timesteps));
    && b.velocity == Scale(Speed(c, t), d) && b.track.launch == v0
    && (b.track.rolling <==> timesteps != [] && c.switchTime <= t)
    && b.travelled == PostSum(c, InSeconds(timesteps))
  }

  lemma InSecondsStep(timesteps: seq<real>)
    requires timesteps != [] && LongFrames(timesteps)
    ensures var n := |timesteps| - 1;
            && InSeconds(timesteps)[..n] == InSeconds(timesteps[..n])
            && |InSeconds(timesteps)| == n + 1 && InSeconds(timesteps)[n] == Seconds(timesteps[n])
            && AllPositive(InSeconds(timesteps))
  {
    forall i | 0 <= i < |timesteps| ensures 0.0 < InSeconds(timesteps)[i] {
      SecondsPositive(timesteps[i]);
    }
  }

  /** Friction refines the closed form: from a launch at speed v0, for every way of cutting the time
      into frames, the speed is exactly the closed form's as long as the last frame still measured
      the crawl speed, and zero from then on. Nothing on the way is taken for an impact or for a new
      launch, and the ball rolls exactly from the frame that contains the switch. */
  lemma FrictionRefinesClosedForm(hyp: (real, real) -> real, p: Params, d: V2, v0: real, timesteps: seq<real>)
    requires IsHypot(hyp) && Physical(p) && Dot(d, d) == 1.0 && 0.0 <= v0 && LongFrames(timesteps)
    ensures var b := Frames(hyp, p, Placed(hyp, Scale(v0, d)), timesteps);
            if timesteps == [] || CRAWL_SPEED <= Speed(Closed(p, v0), LastStart(timesteps))
            then OnProfile(p, d, v0, timesteps, b)
            else Stopped(b)
  {
    FramesRefine(hyp, p, d, v0, timesteps);
  }

  ghost predicate StillMoving(p: Params, v0: real, timesteps: seq<real>)
    requires Physical(p)
  {
    timesteps == [] || CRAWL_SPEED <= Speed(Closed(p, v0), LastStart(timesteps))
  }

  ghost predicate AlongRun(p: Params, d: V2, v0: real, timesteps: seq<real>, b: Body)
    requires Physical(p)
  {
    if StillMoving(p, v0, timesteps) then
      && OnProfile(p, d, v0, timesteps, b)
      && OnLineAt(p, d, Closed(p, v0), Sum(InSeconds(timesteps)), b)
    else
      Stopped(b)
  }

  lemma {:induction false} FramesRefine(hyp: (real, real) -> real, p: Params, d: V2, v0: real, timesteps: seq<real>)
    requires IsHypot(hyp) && Physical(p) && Dot(d, d) == 1.0 && 0.0 <= v0 && LongFrames(timesteps)
    ensures AlongRun(p, d, v0, timesteps, Frames(hyp, p, Placed(hyp, Scale(v0, d)), timesteps))
  {
    hide AlongRun, Frame, Placed, Dot, IsHypot;
    if timesteps == [] {
      AtLaunch(hyp, p, d, v0, timesteps);
    } else {
      var n := |timesteps| - 1;
      FramesRefine(hyp, p, d, v0, timesteps[..n]);
      StepRefines(hyp, p, d, v0, timesteps, Frames(hyp, p, Placed(hyp, Scale(v0, d)), timesteps[..n]));
    }
  }

  lemma AtLaunch(hyp: (real, real) -> real, p: Params, d: V2, v0: real, timesteps: seq<real>)
    requires IsHypot(hyp) && Physical(p) && Dot(d, d) == 1.0 && 0.0 <= v0 && timesteps == []
    ensures AlongRun(p, d, v0, timesteps, Placed(hyp, Scale(v0, d)))
  {
    var c := Closed(p, v0);
    ProfileOfValid(v0, p.slide, p.roll, p.k);
    assert c.v0 == v0;
    NothingRun(c, timesteps);
    NotYetMeasured(d);
    hide Speed, Dot, IsHypot, Closed, MetresOnLine, Scale, PostSum, Sum, InSeconds;
    AtStart(c);
    SpeedOnLine(hyp, d, v0, Scale(v0, d));
  }

  lemma NothingRun(c: Profile, timesteps: seq<real>)
    requires timesteps == []
    ensures Sum(InSeconds(timesteps)) == 0.0 && PostSum(c, InSeconds(timesteps)) == 0.0
  {
  }

  lemma NotYetMeasured(d: V2)
    ensures V2(0.0, 0.0) == MetresOnLine(0.0, d)
  {
  }

  lemma StepRefines(hyp: (real, real) -> real, p: Params, d: V2, v0: real, timesteps: seq<real>, b: Body)
    requires IsHypot(hyp) && Physical(p) && Dot(d, d) == 1.0 && 0.0 <= v0 && LongFrames(timesteps) && timesteps != []
    requires AlongRun(p, d, v0, timesteps[..|timesteps| - 1], b)
    ensures AlongRun(p, d, v0, timesteps, Frame(hyp, p, b, timesteps[|timesteps| - 1]))
  {
    hide Speed, Frame, Dot, IsHypot, Scale, SlowingAlong, Seconds, Sum, InSeconds, PhaseAt, Closed, PostSum;
    var c := Closed(p, v0);
    var n := |timesteps| - 1;
    var init, last := timesteps[..n], timesteps[n];
    var t := Sum(InSeconds(init));
    TimesOfRun(p, v0, timesteps);
    if StillMoving(p, v0, init) {
      if Speed(c, t) < CRAWL_SPEED {
        FrameStops(hyp, p, d, Speed(c, t), b, last);
      } else {
        FrameRefines(hyp, p, d, c, t, b, last, Seconds(last));
      }
    } else {
      StoppedIsOnLine(d, b);
      FrameStops(hyp, p, d, 0.0, b, last);
    }
  }

  /** The clock of a run and its last frame. */
  lemma TimesOfRun(p: Params, v0: real, timesteps: seq<real>)
    requires Physical(p) && 0.0 <= v0 && LongFrames(timesteps) && timesteps != []
    ensures var n := |timesteps| - 1;
            var c := Closed(p, v0);
            var t := Sum(InSeconds(timesteps[..n]));
            && c.v0 == v0 && 0.0 <= t && 0.0 <= Speed(c, t)
            && Sum(InSeconds(timesteps)) == t + Seconds(timesteps[n])
            && PostSum(c, InSeconds(timesteps)) == PostSum(c, InSeconds(timesteps[..n])) + Speed(c, t + Seconds(timesteps[n])) * Seconds(timesteps[n])
            && (StillMoving(p, v0, timesteps) ==> StillMoving(p, v0, timesteps[..n]))
  {
    var c := Closed(p, v0);
    var n := |timesteps| - 1;
    var init := timesteps[..n];
    ProfileOfValid(v0, p.slide, p.roll, p.k);
    assert c.v0 == v0;
    hide Speed, Closed, Seconds;
    InSecondsStep(timesteps);
    SumsStep(c, InSeconds(timesteps));
    InSecondsPositive(init);
    SumNonNegative(InSeconds(init));
    SpeedRange(c, Sum(InSeconds(init)));
    if init != [] {
      InSecondsStep(init);
      LaterIsSlower(c, InSeconds(init));
    }
  }

  lemma InSecondsPositive(timesteps: seq<real>)
    requires LongFrames(timesteps)
    ensures AllPositive(InSeconds(timesteps))
  {
    if timesteps != [] {
      InSecondsStep(timesteps);
    }
  }

  lemma StoppedIsOnLine(d: V2, b: Body)
    requires Stopped(b)
    ensures b.velocity == Scale(0.0, d)
  {
  }

  lemma LaterIsSlower(c: Profile, ticks: seq<real>)
    requires c.Valid() && AllPositive(ticks) && ticks != []
    ensures Speed(c, Sum(ticks)) <= Speed(c, Sum(ticks[..|ticks| - 1]))
  {
    hide Speed;
    SumNonNegative(ticks[..|ticks| - 1]);
    DistanceBracketTick(c, Sum(ticks[..|ticks| - 1]), Sum(ticks), ticks[|ticks| - 1]);
  }

  lemma PostSumBracket(p: Params, v0: real, timesteps: seq<real>, longest: real)
    requires Physical(p) && 0.0 <= v0 && LongFrames(timesteps) && 0.0 <= longest
    requires forall i :: 0 <= i < |timesteps| ==> Seconds(timesteps[i]) <= longest
    ensures var c := Closed(p, v0);
            var ticks := InSeconds(timesteps);
            PostSum(c, ticks) <= Distance(c, Sum(ticks)) <= PostSum(c, ticks) + longest * v0
  {
    hide Speed, Distance, Seconds, Closed, ProfileOf, Sum, PostSum, PreSum;
    InSecondsPositive(timesteps);
    ClosedLaunch(p, v0);
    TicksBracket(Closed(p, v0), v0, InSeconds(timesteps), longest);
  }

  lemma ClosedLaunch(p: Params, v0: real)
    requires Physical(p) && 0.0 <= v0
    ensures Closed(p, v0).Valid() && Closed(p, v0).v0 == v0
  {
    ProfileOfValid(v0, p.slide, p.roll, p.k);
  }

  lemma TicksBracket(c: Profile, v0: real, ticks: seq<real>, longest: real)
    requires c.Valid() && c.v0 == v0 && AllPositive(ticks) && 0.0 <= longest
    requires forall i :: 0 <= i < |ticks| ==> ticks[i] <= longest
    ensures PostSum(c, ticks) <= Distance(c, Sum(ticks)) <= PostSum(c, ticks) + longest * v0
  {
    hide Speed, Distance, Sum, PostSum, PreSum;
    TravelBracket(c, ticks, longest);
    SameFactor(longest, c.v0, v0);
  }
}
