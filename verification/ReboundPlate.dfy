/** The plate told by what it does: it moves as a point of the turning robot, and a kick off it is told by its
    components along and across the heading. */
module ReboundPlate {
  import opened RealMath
  import opened KickLimits
  import opened BallContact
  import opened Rebound

  /** Where the ball is from the robot's centre: ahead of it, and to its left. */
  function Arm(r: Bot, ball: V2): V2 {
    var a := Minus(ball, r.position);
    V2(Dot(a, Normal(r.heading)), Dot(a, Tangent(r.heading)))
  }

  /** The plate moves as a rigid body does: ahead with the forward drive less the spin times the arm to the
      left, and to the left with the sideways drive plus the spin times the arm ahead. */
  lemma PlateIsRigid(r: Bot, ball: V2)
    requires Dot(r.heading, r.heading) == 1.0
    ensures var v := BodyPoint(r, ball);
            && Dot(v, Normal(r.heading)) == r.drive.x - r.spin * Arm(r, ball).y
            && Dot(v, Tangent(r.heading)) == r.drive.y + r.spin * Arm(r, ball).x
  {
    DriveAxes(r);
    SpinAxes(r, ball);
    hide *;
    DotSplits(BodyPoint(r, ball), DriveVelocity(r), Normal(r.heading));
    DotSplits(BodyPoint(r, ball), DriveVelocity(r), Tangent(r.heading));
  }

  lemma DotSplits(v: V2, w: V2, n: V2)
    ensures Dot(v, n) == Dot(w, n) + Dot(Minus(v, w), n)
  {
  }

  lemma DriveAxes(r: Bot)
    requires Dot(r.heading, r.heading) == 1.0
    ensures Dot(DriveVelocity(r), Normal(r.heading)) == r.drive.x && Dot(DriveVelocity(r), Tangent(r.heading)) == r.drive.y
  {
    AxesOf(r.drive.x, r.drive.y, r.heading.x, r.heading.y, r.heading.x * r.heading.x, r.heading.y * r.heading.y);
  }

  lemma AxesOf(a: real, b: real, c: real, s: real, cc: real, ss: real)
    requires cc == c * c && ss == s * s && cc + ss == 1.0
    ensures (a * c - b * s) * c + (a * s + b * c) * s == a
    ensures -(a * c - b * s) * s + (a * s + b * c) * c == b
  {
    assert (a * c - b * s) * c + (a * s + b * c) * s == a * cc + a * ss;
    assert -(a * c - b * s) * s + (a * s + b * c) * c == b * cc + b * ss;
    assert a * cc + a * ss == a * (cc + ss) && b * cc + b * ss == b * (cc + ss);
  }

  lemma SpinAxes(r: Bot, ball: V2)
    ensures var turn := Minus(BodyPoint(r, ball), DriveVelocity(r));
            && Dot(turn, Normal(r.heading)) == -(r.spin * Arm(r, ball).y)
            && Dot(turn, Tangent(r.heading)) == r.spin * Arm(r, ball).x
  {
    var a := Minus(ball, r.position);
    var turn := Minus(BodyPoint(r, ball), DriveVelocity(r));
    assert turn == V2(r.spin * a.y, -(r.spin * a.x)) by { hide DriveVelocity; }
    Turned(r.spin, a.x, a.y, r.heading.x, r.heading.y);
  }

  lemma Turned(w: real, x: real, y: real, c: real, s: real)
    ensures (w * y) * c + -(w * x) * -s == -(w * (x * -s + y * -c))
    ensures (w * y) * -s + -(w * x) * -c == w * (x * c + y * -s)
  {
  }

  // --- which velocity came at the plate ---------------------------------------------------------------------

  /** Speed at which a ball with measured velocity v [m/s] closes in on the plate [mm/s]. */
  function Closing(r: Bot, ball: V2, v: V3): real {
    Dot(Minus(BodyPoint(r, ball), V2(1000.0 * v.x, 1000.0 * v.z)), Normal(r.heading))
  }

  /** Between the sample before it and sample k the ball lost more closing speed than `drop`: the collision
      lies in between. */
  ghost predicate AfterCollision(r: Bot, ball: V2, samples: seq<V3>, drop: real, k: nat)
    requires k < |samples|
  {
    && k + 1 < |samples| && 0.0 < drop && 0.0 < Closing(r, ball, samples[k + 1])
    && drop < Closing(r, ball, samples[k + 1]) - Closing(r, ball, samples[k])
  }

  ghost predicate CameIn(r: Bot, ball: V2, samples: seq<V3>, drop: real, k: nat)
    requires k < |samples|
  {
    0.0 < Closing(r, ball, samples[k]) && !AfterCollision(r, ball, samples, drop, k)
  }

  /** v is the velocity with which the ball came at the plate: the present one for a robot that holds the
      ball or without samples; else the newest sample that closes in and does not follow the collision, or
      the newest one if there is none. */
  ghost predicate Came(r: Bot, ball: V2, holder: bool, velocity: V3, samples: seq<V3>, drop: real, v: V3) {
    if holder || samples == [] then v == velocity
    else if forall k :: 0 <= k < |samples| ==> !CameIn(r, ball, samples, drop, k) then v == samples[0]
    else exists k :: 0 <= k < |samples| && v == samples[k] && CameIn(r, ball, samples, drop, k)
                     && forall j :: 0 <= j < k ==> !CameIn(r, ball, samples, drop, j)
  }

  lemma ClosingIs(r: Bot, ball: V2, v: V3)
    ensures NormalSpeed(Plate(BodyPoint(r, ball), Normal(r.heading)), v) == -Closing(r, ball, v)
  {
    hide BodyPoint, Normal;
  }

  lemma CameInIs(r: Bot, ball: V2, samples: seq<V3>, drop: real, k: nat)
    requires k < |samples|
    ensures CameIn(r, ball, samples, drop, k) <==> Usable(Plate(BodyPoint(r, ball), Normal(r.heading)), samples, drop, k)
  {
    ClosingIs(r, ball, samples[k]);
    if k + 1 < |samples| {
      ClosingIs(r, ball, samples[k + 1]);
    }
    hide NormalSpeed, BodyPoint, Closing, Normal;
  }

  lemma CameIncoming(r: Bot, ball: V2, samples: seq<V3>, drop: real, velocity: V3)
    requires samples != []
    ensures Came(r, ball, false, velocity, samples, drop,
                 samples[IncomingIndex(Plate(BodyPoint(r, ball), Normal(r.heading)), samples, drop, 0)])
  {
    var plate := Plate(BodyPoint(r, ball), Normal(r.heading));
    NewestUsable(plate, samples, drop, 0);
    hide IncomingIndex, Usable, CameIn, BodyPoint, Normal;
    forall k | 0 <= k < |samples| ensures CameIn(r, ball, samples, drop, k) <==> Usable(plate, samples, drop, k) {
      CameInIs(r, ball, samples, drop, k);
    }
  }

  lemma CameOnly(r: Bot, ball: V2, holder: bool, velocity: V3, samples: seq<V3>, drop: real, v: V3, w: V3)
    requires Came(r, ball, holder, velocity, samples, drop, v) && Came(r, ball, holder, velocity, samples, drop, w)
    ensures v == w
  {
    hide CameIn;
  }

  // --- the kick -----------------------------------------------------------------------------------------------

  /** `out` leaves the plate after a ball came at it with velocity v: along the heading at the speed of the
      kick plus e times the closing speed, or at the faster of the kick and the ball if it did not close in;
      across it with the retained share; upwards with the kick's. All relative to the moving plate. */
  ghost predicate LeavesPlate(m: PlateModel, r: Bot, ball: V2, v: V3, kick: Kick, out: V3) {
    var rel := Minus(V2(1000.0 * v.x, 1000.0 * v.z), BodyPoint(r, ball));
    var away := Minus(V2(out.x, out.z), BodyPoint(r, ball));
    var along := Dot(rel, Normal(r.heading));
    && Dot(away, Normal(r.heading)) == (if along < 0.0 then kick.forward - m.restitution * along
                                        else if along < kick.forward then kick.forward else along)
    && Dot(away, Tangent(r.heading)) == m.retention * Dot(rel, Tangent(r.heading))
    && out.y == kick.up
  }

  lemma BounceLeaves(m: PlateModel, heading: V2, point: V2, incoming: V2, forward: real)
    requires Dot(heading, heading) == 1.0
    ensures var rel := Minus(incoming, point);
            var away := Minus(Bounce(m, heading, point, incoming, forward), point);
            && Dot(away, Normal(heading)) == OutNormal(m, Dot(rel, Normal(heading)), forward)
            && Dot(away, Tangent(heading)) == Share(m.retention, Dot(rel, Tangent(heading)))
  {
    PlateAxes(heading);
    hide Dot, Plus, Minus, Scale, Normal, Tangent, OutNormal, Share;
    var rel := Minus(incoming, point);
    MinusPlus(point, OutOfPlate(m, heading, Dot(rel, Normal(heading)), Dot(rel, Tangent(heading)), forward));
    Components(Normal(heading), Tangent(heading), OutNormal(m, Dot(rel, Normal(heading)), forward),
               Share(m.retention, Dot(rel, Tangent(heading))));
  }

  lemma OutNormalIs(m: PlateModel, along: real, forward: real)
    ensures OutNormal(m, along, forward)
         == if along < 0.0 then forward - m.restitution * along else if along < forward then forward else along
  {
  }

  lemma ShareIs(k: real, x: real)
    ensures Share(k, x) == k * x
  {
  }

  lemma FloorIs(v: V3)
    ensures Floor(v) == V2(1000.0 * v.x, 1000.0 * v.z)
  {
  }

  lemma BounceLeavesPlate(m: PlateModel, r: Bot, ball: V2, v: V3, kick: Kick, out: V3)
    requires Dot(r.heading, r.heading) == 1.0
    requires V2(out.x, out.z) == Bounce(m, r.heading, BodyPoint(r, ball), Floor(v), kick.forward) && out.y == kick.up
    ensures LeavesPlate(m, r, ball, v, kick, out)
  {
    FloorIs(v);
    hide Dot, Minus, Floor, BodyPoint, Bounce, Normal, Tangent, OutNormal, Share;
    BounceLeaves(m, r.heading, BodyPoint(r, ball), Floor(v), kick.forward);
    var rel := Minus(Floor(v), BodyPoint(r, ball));
    OutNormalIs(m, Dot(rel, Normal(r.heading)), kick.forward);
    ShareIs(m.retention, Dot(rel, Tangent(r.heading)));
  }

  lemma SameVector(n: V2, t: V2, p: V2, a: V2, b: V2)
    requires Dot(n, n) == 1.0 && t == V2(n.y, -n.x)
    requires Dot(Minus(a, p), n) == Dot(Minus(b, p), n) && Dot(Minus(a, p), t) == Dot(Minus(b, p), t)
    ensures a == b
  {
    var x, y := a.x - b.x, a.y - b.y;
    assert x * n.x + y * n.y == 0.0;
    assert x * n.y - y * n.x == 0.0;
    Unturned(x, y, n.x, n.y);
  }

  lemma Unturned(x: real, y: real, c: real, s: real)
    requires c * c + s * s == 1.0 && x * c + y * s == 0.0 && x * s - y * c == 0.0
    ensures x == 0.0 && y == 0.0
  {
    assert x * (c * c) + y * (s * c) == 0.0 && x * (s * s) - y * (c * s) == 0.0 by {
      assert (x * c + y * s) * c == x * (c * c) + y * (s * c);
      assert (x * s - y * c) * s == x * (s * s) - y * (c * s);
    }
    assert x * (c * c) + x * (s * s) == x * (c * c + s * s);
    assert x * (c * s) + y * (s * s) == 0.0 && x * (s * c) - y * (c * c) == 0.0 by {
      assert (x * c + y * s) * s == x * (c * s) + y * (s * s);
      assert (x * s - y * c) * c == x * (s * c) - y * (c * c);
    }
    assert y * (c * c) + y * (s * s) == y * (c * c + s * s);
  }

  lemma NormalToTangent(heading: V2)
    requires Dot(heading, heading) == 1.0
    ensures Dot(Normal(heading), Normal(heading)) == 1.0
    ensures Tangent(heading) == V2(Normal(heading).y, -Normal(heading).x)
  {
  }

  /** The launch of a kick is the velocity that leaves the plate after the velocity with which the ball came
      at it, and no other: whether the robot holds the ball, is hit by it, or neither. */
  lemma DirectKickExactly(m: PlateModel, r: Bot, ball: V2, holder: bool, velocity: V3, recent: seq<V3>, drop: real,
                          kick: Kick, out: V3)
    requires Dot(r.heading, r.heading) == 1.0
    ensures out == DirectKick(m, r, ball, holder, velocity, recent, drop, kick)
            <==> exists v :: Came(r, ball, holder, velocity, recent, drop, v) && LeavesPlate(m, r, ball, v, kick, out)
  {
    var launch := DirectKick(m, r, ball, holder, velocity, recent, drop, kick);
    var v := DirectKickCame(m, r, ball, holder, velocity, recent, drop, kick);
    hide Came, LeavesPlate, DirectKick, Dot;
    if w :| Came(r, ball, holder, velocity, recent, drop, w) && LeavesPlate(m, r, ball, w, kick, out) {
      CameOnly(r, ball, holder, velocity, recent, drop, v, w);
      LeavesOnly(m, r, ball, v, kick, launch, out);
    }
  }

  lemma LeavesOnly(m: PlateModel, r: Bot, ball: V2, v: V3, kick: Kick, a: V3, b: V3)
    requires Dot(r.heading, r.heading) == 1.0 && LeavesPlate(m, r, ball, v, kick, a) && LeavesPlate(m, r, ball, v, kick, b)
    ensures a == b
  {
    NormalToTangent(r.heading);
    hide Dot, Minus, BodyPoint, Normal, Tangent;
    SameVector(Normal(r.heading), Tangent(r.heading), BodyPoint(r, ball), V2(a.x, a.z), V2(b.x, b.z));
  }

  lemma DirectKickCame(m: PlateModel, r: Bot, ball: V2, holder: bool, velocity: V3, recent: seq<V3>, drop: real, kick: Kick)
    returns (v: V3)
    requires Dot(r.heading, r.heading) == 1.0
    ensures Came(r, ball, holder, velocity, recent, drop, v)
    ensures LeavesPlate(m, r, ball, v, kick, DirectKick(m, r, ball, holder, velocity, recent, drop, kick))
  {
    if holder || recent == [] {
      v := velocity;
      OneSample(Plate(BodyPoint(r, ball), Normal(r.heading)), velocity, drop);
    } else {
      CameIncoming(r, ball, recent, drop, velocity);
      v := recent[IncomingIndex(Plate(BodyPoint(r, ball), Normal(r.heading)), recent, drop, 0)];
    }
    hide Dot, BodyPoint, Bounce, IncomingIndex, Normal, CameIn, LeavesPlate;
    BounceLeavesPlate(m, r, ball, v, kick, DirectKick(m, r, ball, holder, velocity, recent, drop, kick));
  }

  lemma OneSample(plate: Plate, v: V3, drop: real)
    ensures [v][IncomingIndex(plate, [v], drop, 0)] == v
  {
    hide IncomingIndex;
  }
}
