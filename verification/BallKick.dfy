/** A kick that reaches the body keeps the velocity remembered from the frame before. It follows the
    closed form from its first frame unless that frame takes it for an impact, which costs one frame. */
module BallKick {
  import opened RealMath
  import opened BallProfile
  import opened BallFriction

  /** A body just launched along d; `prev` is the velocity of the frame before, in m/s. */
  function JustKicked(prev: V2, v0: real, d: V2): Body {
    Body(Track(prev, v0, false), Scale(v0, d), 0.0)
  }

  /** On the closed form since the launch while the last frame still measured the crawl speed, and at
      rest from then on. */
  ghost predicate Follows(p: Params, d: V2, v0: real, timesteps: seq<real>, b: Body)
    requires Physical(p)
  {
    if StillMoving(p, v0, timesteps) then OnProfile(p, d, v0, timesteps, b) else Stopped(b)
  }

  function Remembering(b: Body, prev: V2): Body {
    b.(track := b.track.(prev := prev))
  }

  /** The memory of the frame before decides nothing but whether there is an impact. */
  lemma MemoryOnlyForImpact(hyp: (real, real) -> real, p: Params, s: Track, prev: V2, velocity: V2, timestep: real)
    requires Physical(p) && 1.0 < timestep
    requires var v := Scale(1000.0, velocity);
             !Impact(hyp, v, Scale(1000.0, s.prev)) && !Impact(hyp, v, Scale(1000.0, prev))
    ensures Friction(hyp, p, s, 0.0, 21.0, velocity, timestep) == Friction(hyp, p, s.(prev := prev), 0.0, 21.0, velocity, timestep)
  {
    assert 0.0 <= PARK_LIMIT && 21.0 <= GROUND_HEIGHT;
    hide Impact, Scale, Minus, Slow, Seconds;
  }

  lemma SameFrame(hyp: (real, real) -> real, p: Params, b: Body, prev: V2, timestep: real)
    requires Physical(p) && 1.0 < timestep
    requires !Impact(hyp, b.velocity, Scale(1000.0, b.track.prev)) && !Impact(hyp, b.velocity, Scale(1000.0, prev))
    ensures Frame(hyp, p, b, timestep) == Frame(hyp, p, Remembering(b, prev), timestep)
  {
    MilliAndBack(b.velocity);
    hide Impact, Scale, Plus, Friction, Seconds;
    MemoryOnlyForImpact(hyp, p, b.track, prev, Scale(0.001, b.velocity), timestep);
  }

  lemma {:induction false} SameRun(hyp: (real, real) -> real, p: Params, b: Body, prev: V2, timesteps: seq<real>)
    requires Physical(p) && LongFrames(timesteps) && timesteps != []
    requires !Impact(hyp, b.velocity, Scale(1000.0, b.track.prev)) && !Impact(hyp, b.velocity, Scale(1000.0, prev))
    ensures Frames(hyp, p, b, timesteps) == Frames(hyp, p, Remembering(b, prev), timesteps)
  {
    hide Frame, Impact, Remembering, Scale;
    var n := |timesteps| - 1;
    if n == 0 {
      SameFrame(hyp, p, b, prev, timesteps[0]);
      assert timesteps[..0] == [];
    } else {
      SameRun(hyp, p, b, prev, timesteps[..n]);
    }
  }

  lemma NoMemoryNoImpact(hyp: (real, real) -> real, v: V2)
    requires IsHypot(hyp)
    ensures !Impact(hyp, v, Scale(1000.0, V2(0.0, 0.0)))
  {
    HypotIs(hyp, 0.0, 0.0, 0.0);
  }

  /** Without an impact the run is that of a placed ball. */
  lemma GentleKick(hyp: (real, real) -> real, p: Params, d: V2, v0: real, prev: V2, timesteps: seq<real>)
    requires IsHypot(hyp) && Physical(p) && Dot(d, d) == 1.0 && 0.0 <= v0 && LongFrames(timesteps)
    requires !Impact(hyp, Scale(v0, d), Scale(1000.0, prev))
    ensures Follows(p, d, v0, timesteps, Frames(hyp, p, JustKicked(prev, v0, d), timesteps))
  {
    var b := Placed(hyp, Scale(v0, d));
    FrictionRefinesClosedForm(hyp, p, d, v0, timesteps);
    SpeedOnLine(hyp, d, v0, Scale(v0, d));
    NoMemoryNoImpact(hyp, Scale(v0, d));
    hide Speed, Impact, Dot, IsHypot, Scale, Frame, Closed, PostSum, Sum, InSeconds;
    assert Remembering(b, prev) == JustKicked(prev, v0, d);
    if timesteps != [] {
      SameRun(hyp, p, b, prev, timesteps);
    }
  }

  // --- the frame that takes the kick for an impact -------------------------------------------------------

  lemma ImpactFrame(hyp: (real, real) -> real, p: Params, d: V2, v0: real, prev: V2, timestep: real)
    requires IsHypot(hyp) && Physical(p) && Dot(d, d) == 1.0 && 0.0 <= v0 && 1.0 < timestep
    requires Impact(hyp, Scale(v0, d), Scale(1000.0, prev))
    ensures Frame(hyp, p, JustKicked(prev, v0, d), timestep)
         == JustKicked(Scale(0.001, Scale(v0, d)), v0, d).(travelled := v0 * Seconds(timestep))
    ensures 200.0 < v0
  {
    MilliAndBack(Scale(v0, d));
    SpeedOnLine(hyp, d, v0, Scale(v0, d));
    SecondsPositive(timestep);
    NoPush(p.mass, Scale(v0, d));
    hide Scale, Dot, IsHypot, Plus, Minus, Slow, Seconds;
  }

  lemma NoPush(mass: real, v: V2)
    requires mass != 0.0
    ensures Plus(v, Scale(1.0 / mass, NO_IMPULSE)) == v
  {
    assert (1.0 / mass) * 0.0 == 0.0;
  }

  /** The ball has slowed down by the end of its first frame. */
  lemma SlowedAfter(c: Profile, t: real)
    requires c.Valid() && 0.0 < c.v0 && 0.0 < t
    ensures Speed(c, t) < c.v0
  {
    if t <= c.switchTime {
      NamedProductPositive(c.slide, t, c.slide * t);
    } else {
      NamedProductPositive(c.roll, t - c.switchTime, c.roll * (t - c.switchTime));
    }
  }

  lemma SpeedOfPoint(d: V2, a: real, b: real)
    requires Dot(d, d) == 1.0 && Scale(a, d) == Scale(b, d)
    ensures a == b
  {
    DotOnLine(d, a, 1.0);
    DotOnLine(d, b, 1.0);
  }

  lemma OneFrame(hyp: (real, real) -> real, p: Params, b: Body, timestep: real)
    requires p.mass != 0.0
    ensures Frames(hyp, p, b, [timestep]) == Frame(hyp, p, b, timestep)
    ensures InSeconds([timestep]) == [Seconds(timestep)] && Sum(InSeconds([timestep])) == Seconds(timestep)
    ensures LastStart([timestep]) == 0.0
  {
    hide Frame, Seconds;
    assert [timestep][..0] == [];
    assert Frames(hyp, p, b, []) == b;
    assert [Seconds(timestep)][..0] == [];
    assert Sum([]) == 0.0;
  }

  lemma ImpactMissesAFrame(hyp: (real, real) -> real, p: Params, d: V2, v0: real, prev: V2, timestep: real)
    requires IsHypot(hyp) && Physical(p) && Dot(d, d) == 1.0 && 0.0 <= v0 && 1.0 < timestep
    requires Impact(hyp, Scale(v0, d), Scale(1000.0, prev))
    ensures !Follows(p, d, v0, [timestep], Frames(hyp, p, JustKicked(prev, v0, d), [timestep]))
  {
    var c := Closed(p, v0);
    var t := Seconds(timestep);
    ImpactFrame(hyp, p, d, v0, prev, timestep);
    OneFrame(hyp, p, JustKicked(prev, v0, d), timestep);
    SecondsPositive(timestep);
    ProfileOfValid(v0, p.slide, p.roll, p.k);
    AtStart(c);
    SlowedAfter(c, t);
    hide Speed, Impact, Dot, IsHypot, Scale, Frame, Frames, PostSum, Sum, InSeconds, Seconds, LastStart;
    if Follows(p, d, v0, [timestep], Frames(hyp, p, JustKicked(prev, v0, d), [timestep])) {
      SpeedOfPoint(d, v0, Speed(c, t));
    }
  }

  /** A delivered kick follows the closed form over every run of frames if and only if it is not taken
      for an impact on the velocity of the frame before. */
  lemma KickFollowsExactly(hyp: (real, real) -> real, p: Params, d: V2, v0: real, prev: V2)
    requires IsHypot(hyp) && Physical(p) && Dot(d, d) == 1.0 && 0.0 <= v0
    ensures !Impact(hyp, Scale(v0, d), Scale(1000.0, prev))
            <==> forall timesteps :: LongFrames(timesteps) ==> Follows(p, d, v0, timesteps, Frames(hyp, p, JustKicked(prev, v0, d), timesteps))
  {
    hide Impact, Follows, Frames, Dot, IsHypot, Scale, JustKicked;
    if Impact(hyp, Scale(v0, d), Scale(1000.0, prev)) {
      ImpactMissesAFrame(hyp, p, d, v0, prev, 16.0);
      assert LongFrames([16.0]);
    } else {
      forall timesteps | LongFrames(timesteps) ensures Follows(p, d, v0, timesteps, Frames(hyp, p, JustKicked(prev, v0, d), timesteps)) {
        GentleKick(hyp, p, d, v0, prev, timesteps);
      }
    }
  }

  // --- afterwards -----------------------------------------------------------------------------------------

  lemma {:induction false} FramesFrom(hyp: (real, real) -> real, p: Params, b: Body, first: real, timesteps: seq<real>)
    requires p.mass != 0.0
    ensures Frames(hyp, p, b, [first] + timesteps) == Frames(hyp, p, Frame(hyp, p, b, first), timesteps)
  {
    hide Frame;
    if timesteps == [] {
      assert [first] + timesteps == [first] && [first][..0] == [];
      assert Frames(hyp, p, b, []) == b;
    } else {
      var n := |timesteps| - 1;
      FramesFrom(hyp, p, b, first, timesteps[..n]);
      assert ([first] + timesteps)[..n + 1] == [first] + timesteps[..n];
    }
  }

  lemma FrameShifts(hyp: (real, real) -> real, p: Params, b: Body, x: real, timestep: real)
    requires p.mass != 0.0
    ensures Frame(hyp, p, b.(travelled := b.travelled + x), timestep)
         == Frame(hyp, p, b, timestep).(travelled := Frame(hyp, p, b, timestep).travelled + x)
  {
    hide Friction, Plus, Scale, Seconds;
  }

  lemma {:induction false} FramesShift(hyp: (real, real) -> real, p: Params, b: Body, x: real, timesteps: seq<real>)
    requires p.mass != 0.0
    ensures var r := Frames(hyp, p, b, timesteps);
            Frames(hyp, p, b.(travelled := b.travelled + x), timesteps) == r.(travelled := r.travelled + x)
  {
    hide Frame;
    if timesteps != [] {
      var n := |timesteps| - 1;
      FramesShift(hyp, p, b, x, timesteps[..n]);
      FrameShifts(hyp, p, Frames(hyp, p, b, timesteps[..n]), x, timesteps[n]);
    }
  }

  lemma SameVelocityNoImpact(hyp: (real, real) -> real, d: V2, v0: real)
    requires IsHypot(hyp) && Dot(d, d) == 1.0 && 0.0 <= v0
    ensures !Impact(hyp, Scale(v0, d), Scale(1000.0, Scale(0.001, Scale(v0, d))))
  {
    MilliAndBack(Scale(v0, d));
    SpeedOnLine(hyp, d, v0, Scale(v0, d));
    DotOnLine(d, v0, v0);
    ProductNonNegative(v0, v0);
    hide Scale, Dot, IsHypot;
  }

  /** A kick taken for an impact loses exactly the friction of that frame: after it the ball follows the
      closed form as if it had been launched one frame later and v0 times that frame further on. */
  lemma ImpactCostsOneFrame(hyp: (real, real) -> real, p: Params, d: V2, v0: real, prev: V2, first: real, timesteps: seq<real>)
    requires IsHypot(hyp) && Physical(p) && Dot(d, d) == 1.0 && 0.0 <= v0 && 1.0 < first && LongFrames(timesteps)
    requires Impact(hyp, Scale(v0, d), Scale(1000.0, prev))
    ensures var b := Frames(hyp, p, JustKicked(prev, v0, d), [first] + timesteps);
            Follows(p, d, v0, timesteps, b.(travelled := b.travelled - v0 * Seconds(first)))
  {
    var later := JustKicked(Scale(0.001, Scale(v0, d)), v0, d);
    var x := v0 * Seconds(first);
    ImpactFrame(hyp, p, d, v0, prev, first);
    FramesFrom(hyp, p, JustKicked(prev, v0, d), first, timesteps);
    assert later.(travelled := x) == later.(travelled := later.travelled + x);
    hide Frame, Frames, Impact, Dot, IsHypot, Scale, Follows, Seconds;
    FramesShift(hyp, p, later, x, timesteps);
    SameVelocityNoImpact(hyp, d, v0);
    GentleKick(hyp, p, d, v0, Scale(0.001, Scale(v0, d)), timesteps);
    var r := Frames(hyp, p, later, timesteps);
    assert r.(travelled := r.travelled + x).(travelled := r.travelled + x - x) == r;
  }
}
