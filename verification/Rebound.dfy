/** The velocity of a ball kicked off the mouth plate (directKickVelocity), and its agreement with
    the independent formula of the measuring tool (direct_prediction). */
module Rebound {
  import opened RealMath
  import opened KickLimits
  import opened BallContact

  /** A robot as one frame sees it: floor position [mm, scene axes (x, z)], heading as (cos w, sin w),
      the driven body velocity (forward, left) [mm/s], its spin [rad/s], the velocity measured from
      its poses, the latched kick command and the dribbler. */
  datatype Bot = Bot(position: V2, heading: V2, drive: V2, spin: real, moved: V2, kick: Kick, spinner: real)

  function Normal(heading: V2): V2 {
    V2(heading.x, -heading.y)
  }

  function Tangent(heading: V2): V2 {
    V2(-heading.y, -heading.x)
  }

  /** Driven velocity of the robot's centre, in scene axes. */
  function DriveVelocity(r: Bot): V2 {
    V2(r.drive.x * r.heading.x - r.drive.y * r.heading.y, -(r.drive.x * r.heading.y + r.drive.y * r.heading.x))
  }

  /** Velocity of the point of the body under the ball. */
  function BodyPoint(r: Bot, ball: V2): V2 {
    var v := DriveVelocity(r);
    V2(v.x + r.spin * (ball.y - r.position.y), v.y - r.spin * (ball.x - r.position.x))
  }

  /** Coefficients of the plate: normal restitution and tangential retention. */
  datatype PlateModel = PlateModel(restitution: real, retention: real)

  /** Velocity out of the plate for a ball with floor velocity `incoming` [mm/s]. */
  function Bounce(m: PlateModel, heading: V2, point: V2, incoming: V2, forward: real): V2 {
    var rel := Minus(incoming, point);
    Plus(point, OutOfPlate(m, heading, Dot(rel, Normal(heading)), Dot(rel, Tangent(heading)), forward))
  }

  function OutOfPlate(m: PlateModel, heading: V2, relN: real, relT: real, forward: real): V2 {
    Plus(Scale(OutNormal(m, relN, forward), Normal(heading)), Scale(Share(m.retention, relT), Tangent(heading)))
  }

  function OutNormal(m: PlateModel, relN: real, forward: real): real {
    if relN < 0.0 then -Share(m.restitution, relN) + forward else Max(relN, forward)
  }

  /** The share k of a speed. */
  function Share(k: real, speed: real): real {
    k * speed
  }

  /** Millimetres per second, on the floor. */
  function Floor(sample: V3): V2 {
    V2(sample.x * 1000.0, sample.z * 1000.0)
  }

  /** The launch of a kick of (forward, up) by robot r at a ball at floor position `ball`. */
  function DirectKick(m: PlateModel, r: Bot, ball: V2, holder: bool, velocity: V3, recent: seq<V3>, maxDrop: real, kick: Kick): V3 {
    var point := BodyPoint(r, ball);
    var samples := if holder || recent == [] then [velocity] else recent;
    var incoming :=
      if holder then velocity
      else samples[IncomingIndex(Plate(point, Normal(r.heading)), samples, maxDrop, 0)];
    var out := Bounce(m, r.heading, point, Floor(incoming), kick.forward);
    V3(out.x, kick.up, out.y)
  }

  // --- what leaves the plate -------------------------------------------------------------------

  lemma PlateAxes(heading: V2)
    requires Dot(heading, heading) == 1.0
    ensures Dot(Normal(heading), Normal(heading)) == 1.0 && Dot(Tangent(heading), Tangent(heading)) == 1.0
    ensures Dot(Normal(heading), Tangent(heading)) == 0.0
  {
  }

  lemma Components(n: V2, t: V2, a: real, b: real)
    requires Dot(n, n) == 1.0 && Dot(t, t) == 1.0 && Dot(n, t) == 0.0
    ensures Dot(Plus(Scale(a, n), Scale(b, t)), n) == a && Dot(Plus(Scale(a, n), Scale(b, t)), t) == b
  {
    DotOfSum(a, b, n, t, n);
    DotOfSum(a, b, n, t, t);
    assert Dot(t, n) == Dot(n, t);
    hide Dot, Plus, Scale;
  }

  lemma DotOfSum(a: real, b: real, n: V2, t: V2, v: V2)
    ensures Dot(Plus(Scale(a, n), Scale(b, t)), v) == a * Dot(n, v) + b * Dot(t, v)
  {
    assert (a * n.x + b * t.x) * v.x == a * (n.x * v.x) + b * (t.x * v.x);
    assert (a * n.y + b * t.y) * v.y == a * (n.y * v.y) + b * (t.y * v.y);
    assert a * Dot(n, v) == a * (n.x * v.x) + a * (n.y * v.y);
    assert b * Dot(t, v) == b * (t.x * v.x) + b * (t.y * v.y);
  }

  lemma MinusPlus(p: V2, v: V2)
    ensures Minus(Plus(p, v), p) == v
  {
  }

  /** Relative to the plate point the ball leaves along the normal at least as fast as the kick and
      never into the plate, an approaching ball exactly e times its approach speed faster than the
      kick, and along the plate with exactly the retained share of its sliding speed. */
  lemma ReboundComponents(m: PlateModel, heading: V2, point: V2, incoming: V2, forward: real)
    requires Dot(heading, heading) == 1.0 && 0.0 <= m.restitution
    ensures var rel := Minus(incoming, point);
            var out := Minus(Bounce(m, heading, point, incoming, forward), point);
            var relN := Dot(rel, Normal(heading));
            && forward <= Dot(out, Normal(heading))
            && (0.0 <= forward ==> 0.0 <= Dot(out, Normal(heading)))
            && (relN < 0.0 ==> Dot(out, Normal(heading)) == forward + Share(m.restitution, -relN))
            && (0.0 <= relN ==> relN <= Dot(out, Normal(heading)))
            && Dot(out, Tangent(heading)) == Share(m.retention, Dot(rel, Tangent(heading)))
  {
    PlateAxes(heading);
    hide Dot, Plus, Minus, Scale, Normal, Tangent, OutNormal;
    var rel := Minus(incoming, point);
    var relN := Dot(rel, Normal(heading));
    MinusPlus(point, OutOfPlate(m, heading, relN, Dot(rel, Tangent(heading)), forward));
    Components(Normal(heading), Tangent(heading), OutNormal(m, relN, forward), Share(m.retention, Dot(rel, Tangent(heading))));
    OutNormalRange(m, relN, forward);
  }

  lemma OutNormalRange(m: PlateModel, relN: real, forward: real)
    requires 0.0 <= m.restitution
    ensures forward <= OutNormal(m, relN, forward)
    ensures relN < 0.0 ==> OutNormal(m, relN, forward) == forward + Share(m.restitution, -relN)
    ensures 0.0 <= relN ==> relN <= OutNormal(m, relN, forward)
  {
    if relN < 0.0 {
      NamedProductNonNegative(m.restitution, -relN, m.restitution * (-relN));
      assert m.restitution * (-relN) == -(m.restitution * relN);
    }
  }

  // --- the measuring tool's formula ------------------------------------------------------------

  /** Scene axes (x, z) and vision axes (x, y) differ in the sign of the second one. */
  function Flip(v: V2): V2 {
    V2(v.x, -v.y)
  }

  /** The tool's limit on a kick given by its components. */
  function ToolLimit(hyp: (real, real) -> real, maxStraight: real, maxChip: real, kick: Kick): Kick {
    if kick.up > 0.0 then
      if maxChip > 0.0 && hyp(kick.forward, kick.up) > maxChip then ScaleKick(maxChip / hyp(kick.forward, kick.up), kick) else kick
    else if maxStraight > 0.0 && kick.forward > maxStraight then
      kick.(forward := maxStraight)
    else
      kick
  }

  /** direct_prediction in vision axes: horizontal velocity of a ball kicked off a plate that moves at
      vBody, for a kick that is already limited and scaled. */
  function Prediction(m: PlateModel, heading: V2, vBody: V2, vIn: V2, forward: real): V2 {
    var n := heading;
    var t := V2(-heading.y, heading.x);
    var rel := Minus(vIn, vBody);
    Plus(vBody, Plus(Scale(ToolNormal(m, Dot(rel, n), forward), n), Scale(Share(m.retention, Dot(rel, t)), t)))
  }

  function ToolNormal(m: PlateModel, relN: real, forward: real): real {
    -Share(m.restitution, Min(relN, 0.0)) + forward
  }

  lemma FlipFacts(heading: V2, a: V2, b: V2)
    ensures Dot(Flip(a), heading) == Dot(a, Normal(heading))
    ensures Dot(Flip(a), V2(-heading.y, heading.x)) == Dot(a, Tangent(heading))
    ensures Minus(Flip(a), Flip(b)) == Flip(Minus(a, b))
    ensures heading == Flip(Normal(heading)) && V2(-heading.y, heading.x) == Flip(Tangent(heading))
  {
  }

  lemma FlipLinear(k: real, a: V2, b: V2)
    ensures Scale(k, Flip(a)) == Flip(Scale(k, a)) && Plus(Flip(a), Flip(b)) == Flip(Plus(a, b))
  {
  }

  /** The two formulas give the same launch exactly when the ball approaches the plate or leaves it no
      faster than the kick; otherwise the simulator keeps the larger speed and the tool the kick's. */
  lemma ReboundAgreement(m: PlateModel, heading: V2, point: V2, incoming: V2, forward: real)
    requires Dot(heading, heading) == 1.0
    ensures var relN := Dot(Minus(incoming, point), Normal(heading));
            (Flip(Bounce(m, heading, point, incoming, forward)) == Prediction(m, heading, Flip(point), Flip(incoming), forward))
            <==> (relN < 0.0 || relN <= forward)
  {
    hide *;
    PlateAxes(heading);
    var rel := Minus(incoming, point);
    BounceIs(m, heading, point, incoming, forward, rel);
    PredictionIs(m, heading, point, incoming, forward, rel);
    FlippedEqual(point, Normal(heading), Tangent(heading), OutNormal(m, Dot(rel, Normal(heading)), forward),
                 ToolNormal(m, Dot(rel, Normal(heading)), forward), Share(m.retention, Dot(rel, Tangent(heading))));
    NormalsAgree(m, Dot(rel, Normal(heading)), forward);
  }

  lemma BounceIs(m: PlateModel, heading: V2, point: V2, incoming: V2, forward: real, rel: V2)
    requires rel == Minus(incoming, point)
    ensures Bounce(m, heading, point, incoming, forward)
         == Plus(point, Plus(Scale(OutNormal(m, Dot(rel, Normal(heading)), forward), Normal(heading)),
                             Scale(Share(m.retention, Dot(rel, Tangent(heading))), Tangent(heading))))
  {
    hide Dot, Plus, Minus, Scale, Normal, Tangent, OutNormal, Share;
  }

  lemma PredictionIs(m: PlateModel, heading: V2, point: V2, incoming: V2, forward: real, rel: V2)
    requires rel == Minus(incoming, point)
    ensures Prediction(m, heading, Flip(point), Flip(incoming), forward)
         == Flip(Plus(point, Plus(Scale(ToolNormal(m, Dot(rel, Normal(heading)), forward), Normal(heading)),
                                  Scale(Share(m.retention, Dot(rel, Tangent(heading))), Tangent(heading)))))
  {
    hide Dot, Plus, Minus, Scale, Normal, Tangent, Flip, ToolNormal, Share;
    FlipFacts(heading, incoming, point);
    FlipFacts(heading, rel, rel);
    FlipSum(point, Normal(heading), Tangent(heading),
            ToolNormal(m, Dot(rel, Normal(heading)), forward), Share(m.retention, Dot(rel, Tangent(heading))));
  }

  lemma FlipSum(p: V2, n: V2, t: V2, a: real, b: real)
    ensures Flip(Plus(p, Plus(Scale(a, n), Scale(b, t)))) == Plus(Flip(p), Plus(Scale(a, Flip(n)), Scale(b, Flip(t))))
  {
    hide Flip, Plus, Scale;
    FlipLinear(a, n, n);
    FlipLinear(b, t, t);
    FlipLinear(0.0, Scale(a, n), Scale(b, t));
    FlipLinear(0.0, p, Plus(Scale(a, n), Scale(b, t)));
  }

  lemma FlippedEqual(p: V2, n: V2, t: V2, a: real, b: real, c: real)
    requires Dot(n, n) == 1.0 && Dot(t, t) == 1.0 && Dot(n, t) == 0.0
    ensures Flip(Plus(p, Plus(Scale(a, n), Scale(c, t)))) == Flip(Plus(p, Plus(Scale(b, n), Scale(c, t)))) <==> a == b
  {
    hide Dot, Plus, Scale, Flip;
    Components(n, t, a, c);
    Components(n, t, b, c);
    if Flip(Plus(p, Plus(Scale(a, n), Scale(c, t)))) == Flip(Plus(p, Plus(Scale(b, n), Scale(c, t)))) {
      FlipInjective(p, Plus(Scale(a, n), Scale(c, t)), Plus(Scale(b, n), Scale(c, t)));
    }
  }

  lemma FlipInjective(p: V2, a: V2, b: V2)
    requires Flip(Plus(p, a)) == Flip(Plus(p, b))
    ensures a == b
  {
  }

  lemma NormalsAgree(m: PlateModel, relN: real, forward: real)
    ensures OutNormal(m, relN, forward) == ToolNormal(m, relN, forward) <==> relN < 0.0 || relN <= forward
  {
    assert m.restitution * 0.0 == 0.0;
  }

  /** Firmware limit and kicker efficiency applied to the command of a robot. */
  function Kicked(hyp: (real, real) -> real, maxStraight: real, maxChip: real, friction: real, kick: Kick): Kick {
    ScaleKick(friction, Limit(hyp, maxStraight, maxChip, kick))
  }

  /** A quarter turn to the left, in vision axes. */
  function QuarterTurn(v: V2): V2 {
    V2(-v.y, v.x)
  }

  /** Velocity in vision axes of the point of the robot where the ball is: the drive turned into the heading,
      and the arm to the ball turned at the robot's spin. */
  function VisionPlate(r: Bot, ball: V2): V2 {
    var drive := Plus(Scale(r.drive.x, r.heading), Scale(r.drive.y, QuarterTurn(r.heading)));
    Plus(drive, Scale(r.spin, QuarterTurn(Minus(Flip(ball), Flip(r.position)))))
  }

  lemma VisionPlateIs(r: Bot, ball: V2)
    ensures Flip(BodyPoint(r, ball)) == VisionPlate(r, ball)
  {
  }

  /** Firmware limit, kicker efficiency and plate together: for a command that does not kick backwards, the
      simulator launches a ball that approaches the plate exactly as the tool predicts for a plate that moves
      with the driven and turning robot. */
  lemma LaunchIsPredicted(hyp: (real, real) -> real, m: PlateModel, r: Bot, ball: V2, incoming: V2,
                          maxStraight: real, maxChip: real, friction: real)
    requires IsHypot(hyp) && Dot(r.heading, r.heading) == 1.0 && 0.0 <= r.kick.forward && 0.0 <= friction
    requires Dot(Minus(incoming, BodyPoint(r, ball)), Normal(r.heading)) <= 0.0
    ensures var limited := Kicked(hyp, maxStraight, maxChip, friction, r.kick);
            && limited == ScaleKick(friction, ToolLimit(hyp, maxStraight, maxChip, r.kick))
            && Flip(Bounce(m, r.heading, BodyPoint(r, ball), incoming, limited.forward))
            == Prediction(m, r.heading, VisionPlate(r, ball), Flip(incoming), limited.forward)
  {
    LimitsAgree(hyp, maxStraight, maxChip, r.kick);
    LimitForward(hyp, maxStraight, maxChip, r.kick, friction);
    VisionPlateIs(r, ball);
    hide *;
    ReboundAgreement(m, r.heading, BodyPoint(r, ball), incoming, Kicked(hyp, maxStraight, maxChip, friction, r.kick).forward);
  }

  /** The whole launch of a robot that does not hold the ball: as soon as any recorded sample
      approaches its plate, the launch is the tool's prediction for one of the approaching samples. */
  lemma DirectKickIsPredicted(hyp: (real, real) -> real, m: PlateModel, r: Bot, ball: V2, velocity: V3, recent: seq<V3>,
                              maxDrop: real, maxStraight: real, maxChip: real, friction: real)
    requires IsHypot(hyp) && Dot(r.heading, r.heading) == 1.0 && 0.0 <= r.kick.forward && 0.0 <= friction
    requires exists k :: 0 <= k < |recent| && Approaches(Plate(BodyPoint(r, ball), Normal(r.heading)), recent[k])
    ensures var kick := Kicked(hyp, maxStraight, maxChip, friction, r.kick);
            var out := DirectKick(m, r, ball, false, velocity, recent, maxDrop, kick);
            && out.y == kick.up
            && exists k :: 0 <= k < |recent| && Approaches(Plate(BodyPoint(r, ball), Normal(r.heading)), recent[k])
                 && Flip(V2(out.x, out.z)) == Prediction(m, r.heading, VisionPlate(r, ball), Flip(Floor(recent[k])), kick.forward)
  {
    hide IsHypot, Dot, Prediction, Flip, Bounce, BodyPoint, VisionPlate, Kicked, Floor, Normal, IncomingIndex, SpansCollision;
    var plate := Plate(BodyPoint(r, ball), Normal(r.heading));
    IncomingApproaches(plate, recent, maxDrop);
    var k := IncomingIndex(plate, recent, maxDrop, 0);
    ApproachIsDot(r, BodyPoint(r, ball), recent[k]);
    LaunchIsPredicted(hyp, m, r, ball, Floor(recent[k]), maxStraight, maxChip, friction);
  }

  lemma ApproachIsDot(r: Bot, point: V2, sample: V3)
    ensures NormalSpeed(Plate(point, Normal(r.heading)), sample) == Dot(Minus(Floor(sample), point), Normal(r.heading))
  {
  }

  lemma NoSpin(r: Bot, ball: V2)
    requires r.spin == 0.0
    ensures BodyPoint(r, ball) == DriveVelocity(r)
  {
    hide DriveVelocity;
  }

  lemma LimitsAgree(hyp: (real, real) -> real, maxStraight: real, maxChip: real, kick: Kick)
    requires 0.0 <= kick.forward
    ensures Limit(hyp, maxStraight, maxChip, kick) == ToolLimit(hyp, maxStraight, maxChip, kick)
  {
    hide ScaleKick;
  }

  lemma LimitForward(hyp: (real, real) -> real, maxStraight: real, maxChip: real, kick: Kick, friction: real)
    requires 0.0 <= kick.forward && 0.0 <= friction
    ensures 0.0 <= ScaleKick(friction, Limit(hyp, maxStraight, maxChip, kick)).forward
  {
    var r := Limit(hyp, maxStraight, maxChip, kick);
    if kick.up > 0.0 && maxChip > 0.0 && hyp(kick.forward, kick.up) > maxChip {
      ProperFraction(maxChip, hyp(kick.forward, kick.up));
      NamedProductNonNegative(kick.forward, maxChip / hyp(kick.forward, kick.up), r.forward);
    }
    NamedProductNonNegative(r.forward, friction, r.forward * friction);
  }
}
