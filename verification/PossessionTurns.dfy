/** A robot's turn told from outside: where the ball has to be, which robots act, and what each of them leaves
    of its locks, its sensor, the holder and the ball. */
module PossessionTurns {
  import opened Options
  import opened RealMath
  import opened BallContact
  import opened KickLimits
  import opened Rebound
  import opened ReboundPlate
  import opened Possession
  import opened PossessionInvariant
  import opened PossessionContest
  import opened PossessionExclusion
  import opened PossessionRuns
  import opened PossessionKicks

  // --- the window of a mouth ------------------------------------------------------------------------------------

  /** A ball so far ahead and so far to the left of the centre lies in the circle of 110 mm from the centre
      ahead, and in the cone of the mouth. */
  ghost predicate BeforeMouth(cos: real, ahead: real, left: real) {
    && (ahead - 55.0) * (ahead - 55.0) + left * left < 55.0 * 55.0
    && 0.0 < ahead && (cos * cos) * (ahead * ahead + left * left) < ahead * ahead
  }

  lemma CircleAhead(ahead: real, left: real, dd: real)
    requires dd == ahead * ahead + left * left
    ensures dd < 110.0 * ahead <==> (ahead - 55.0) * (ahead - 55.0) + left * left < 55.0 * 55.0
  {
    assert (ahead - 55.0) * (ahead - 55.0) == ahead * ahead - 110.0 * ahead + 55.0 * 55.0;
  }

  lemma ConeAhead(cos: real, d: real, ahead: real, dd: real)
    requires 0.0 <= cos && 0.0 <= d && dd == d * d
    ensures cos * d < ahead <==> 0.0 < ahead && (cos * cos) * dd < ahead * ahead
  {
    var q := cos * d;
    NamedProductNonNegative(cos, d, q);
    assert q * q == (cos * cos) * dd;
    if 0.0 < ahead {
      if q < ahead {
        SquaresOrdered(q, ahead);
      } else {
        if q * q < ahead * ahead {
          SquareMonotone(q, ahead);
        }
      }
    }
  }

  lemma SquaresOrdered(a: real, b: real)
    requires 0.0 <= a < b
    ensures a * a < b * b
  {
    if b * b <= a * a {
      SquareMonotone(b, a);
    }
  }

  /** Ahead and left of a robot are components of the way to the ball. */
  lemma ArmLength(x: real, y: real, c: real, s: real, ahead: real, left: real)
    requires c * c + s * s == 1.0 && ahead == x * c + y * -s && left == x * -s + y * -c
    ensures ahead * ahead + left * left == x * x + y * y
  {
    var a, b := x * c, y * s;
    var e, f := x * s, y * c;
    assert ahead == a - b && left == -e - f;
    assert a * a + e * e == (x * x) * (c * c + s * s);
    assert b * b + f * f == (y * y) * (c * c + s * s);
    assert a * b == e * f;
  }

  lemma ArmIs(c: Config, r: Bot, ball: V3)
    requires IsHypot(c.hyp) && Dot(r.heading, r.heading) == 1.0
    ensures var arm := Arm(r, FloorOf(ball));
            var d := Distance(c, r, ball);
            && 0.0 <= d && d * d == arm.x * arm.x + arm.y * arm.y
            && arm.x == Dot(V2(ball.x - r.position.x, ball.z - r.position.y), Normal(r.heading))
            && (d == 0.0 <==> FloorOf(ball) == r.position)
  {
    var x, y := ball.x - r.position.x, ball.z - r.position.y;
    HypotSquare(c.hyp, -x, -y);
    ArmLength(x, y, r.heading.x, r.heading.y, Arm(r, FloorOf(ball)).x, Arm(r, FloorOf(ball)).y);
    if Distance(c, r, ball) == 0.0 {
      SumOfSquaresZero(x, y);
    } else if x == 0.0 && y == 0.0 {
      SquareZero(Distance(c, r, ball), 0.0);
    }
  }

  /** The window of the mouth: below 40 mm, before the mouth, or exactly under the centre of a robot that
      turns its back to the first axis. */
  lemma WindowExactly(c: Config, r: Bot, ball: V3)
    requires IsHypot(c.hyp) && Dot(r.heading, r.heading) == 1.0 && 0.0 <= c.mouthCos
    ensures var arm := Arm(r, FloorOf(ball));
            Window(c, r, ball) <==>
            && ball.y < 40.0
            && if FloorOf(ball) == r.position then c.mouthCos < -r.heading.x else BeforeMouth(c.mouthCos, arm.x, arm.y)
  {
    hide *;
    var arm := Arm(r, FloorOf(ball));
    var d := Distance(c, r, ball);
    ArmIs(c, r, ball);
    WindowIs(c, r, ball, d, arm.x, arm.x * arm.x + arm.y * arm.y);
    CircleAhead(arm.x, arm.y, arm.x * arm.x + arm.y * arm.y);
    ConeAhead(c.mouthCos, d, arm.x, arm.x * arm.x + arm.y * arm.y);
    BeforeMouthIs(c.mouthCos, arm.x, arm.y, arm.x * arm.x + arm.y * arm.y);
  }

  lemma BeforeMouthIs(cos: real, ahead: real, left: real, dd: real)
    requires dd == ahead * ahead + left * left
    ensures BeforeMouth(cos, ahead, left)
            <==> (ahead - 55.0) * (ahead - 55.0) + left * left < 55.0 * 55.0 && 0.0 < ahead && (cos * cos) * dd < ahead * ahead
  {
  }

  lemma WindowIs(c: Config, r: Bot, ball: V3, d: real, ahead: real, dd: real)
    requires d == Distance(c, r, ball) && dd == d * d
    requires ahead == Dot(V2(ball.x - r.position.x, ball.z - r.position.y), Normal(r.heading))
    ensures Window(c, r, ball) <==>
            ball.y < 40.0 && if d == 0.0 then c.mouthCos < -r.heading.x else dd < 110.0 * ahead && c.mouthCos * d < ahead
  {
    hide Dot, Distance;
  }

  // --- a turn -----------------------------------------------------------------------------------------------------

  /** The robot asks for a kick. */
  predicate Asks(r: Bot) {
    r.kick != Kick(0.0, 0.0)
  }

  /** Neither kick nor dribbler: it lets go of a ball that it holds. */
  predicate Idle(r: Bot) {
    r.spinner <= 0.0 && !Asks(r)
  }

  predicate Carries(s: State, r: Bot, k: Key) {
    s.holder == Some(k) && !Idle(r)
  }

  /** The ball is in its mouth; the mouth of a robot that carries the ball moves with it. */
  predicate MouthFull(c: Config, s: State, r: Bot, k: Key) {
    if Carries(s, r, k) then s.ball.position.y < 40.0 else Window(c, r, s.ball.position)
  }

  /** Another robot won the contest or holds the ball. */
  predicate KeptOut(s: State, k: Key) {
    (s.winner.Some? && s.winner.value != k) || (s.holder.Some? && s.holder.value != k)
  }

  /** The lock of its last kick binds it: not yet 150 ms old, or the kick still waits for the body, or the
      ball leaves the plate at more than 20 mm/s. */
  predicate Locked(s: State, r: Bot, k: Key) {
    && k in s.kicked
    && (s.ball.nowMs - s.kicked[k] < 150.0 || s.pendingKick.Some?
        || Closing(r, FloorOf(s.ball.position), s.ball.velocity) < -20.0)
  }

  predicate Recharged(s: State, k: Key) {
    k in s.readyAt ==> s.readyAt[k] <= s.ball.nowMs
  }

  predicate Kicks(c: Config, s: State, r: Bot, k: Key) {
    MouthFull(c, s, r, k) && !KeptOut(s, k) && !Locked(s, r, k) && Asks(r) && Recharged(s, k)
  }

  /** Speed of the ball relative to the plate. */
  function Against(c: Config, s: State, r: Bot, v: V3): real {
    var p := BodyPoint(r, FloorOf(s.ball.position));
    c.hyp(1000.0 * v.x - p.x, 1000.0 * v.z - p.y)
  }

  /** A ball that the robot does not carry hits its mouth at the catching speed or more, in this frame or in
      the one before. */
  predicate Bounces(c: Config, s: State, r: Bot, k: Key) {
    && MouthFull(c, s, r, k) && !KeptOut(s, k) && !Carries(s, r, k)
    && (c.catchMax <= Against(c, s, r, s.ball.velocity) || c.catchMax <= Against(c, s, r, s.ball.before))
  }

  /** It takes the ball, or keeps it. */
  predicate Takes(c: Config, s: State, r: Bot, k: Key) {
    && MouthFull(c, s, r, k) && !KeptOut(s, k) && !Locked(s, r, k) && !(Asks(r) && Recharged(s, k))
    && 0.0 < r.spinner && k !in s.bounced && !Bounces(c, s, r, k)
  }

  // --- the turn in these terms --------------------------------------------------------------------------------------

  lemma AsksIs(r: Bot)
    ensures Asks(r) <==> AsksKick(r)
    ensures Idle(r) <==> LetsGo(r)
  {
  }

  lemma LockedIs(s: State, r: Bot, k: Key)
    ensures Locked(s, r, k) <==> k in s.kicked && !Unlocks(s, r, k)
  {
    ClosingIs(r, FloorOf(s.ball.position), s.ball.velocity);
    hide BodyPoint, Closing, Normal, NormalSpeed, FloorOf;
  }

  lemma AgainstIs(c: Config, s: State, r: Bot, v: V3)
    ensures RelativeSpeed(c, s, r, v) == Against(c, s, r, v)
  {
    hide BodyPoint, FloorOf;
  }

  /** The state after letting go and unlocking. */
  lemma SettledIs(s: State, r: Bot, k: Key)
    ensures var t := Settle(s, r, k);
            && t == s.(holder := if Idle(r) && s.holder == Some(k) then None else s.holder,
                       deployed := if Idle(r) && s.holder == Some(k) then s.deployed - {k} else s.deployed,
                       request := if Idle(r) && s.holder == Some(k) && 50000.0 < s.body.x
                                  then Some(Reset(Mouth(r), V3(r.moved.x, 0.0, r.moved.y))) else s.request,
                       kicked := if Locked(s, r, k) then s.kicked else s.kicked - {k})
  {
    AsksIs(r);
    LockedIs(s, r, k);
    var t := if LetsGo(r) then Release(s, r, k) else s;
    LockedIs(t, r, k);
    assert s.kicked - {k} == s.kicked || k in s.kicked;
    hide Mouth, Unlocks, LetsGo, Idle, Closing;
  }

  /** The conditions of the turn after settling. */
  lemma ConditionsAre(c: Config, s: State, r: Bot, k: Key)
    ensures var t := Settle(s, r, k);
            && (InMouth(c, t, r, k) <==> MouthFull(c, s, r, k))
            && (Blocked(t, k) <==> KeptOut(s, k))
            && (Fires(t, r, k) <==> !Locked(s, r, k) && Asks(r) && Recharged(s, k))
            && (InMouth(c, t, r, k) && !Blocked(t, k) ==>
                  (k in Sense(c, t, r, k).bounced <==> k in s.bounced || Bounces(c, s, r, k))
                  && (Catches(Sense(c, t, r, k), r, k) <==> Fires(t, r, k) == false && Takes(c, s, r, k)))
  {
    var t := Settle(s, r, k);
    SettledIs(s, r, k);
    AsksIs(r);
    AgainstIs(c, t, r, s.ball.velocity);
    AgainstIs(c, t, r, s.ball.before);
    AgainstSame(c, s, t, r, s.ball.velocity);
    AgainstSame(c, s, t, r, s.ball.before);
    hide Settle, Window, RelativeSpeed, Against, Locked, Mouth;
  }

  lemma AgainstSame(c: Config, s: State, t: State, r: Bot, v: V3)
    requires s.ball == t.ball
    ensures Against(c, s, r, v) == Against(c, t, r, v)
  {
  }

  // --- what a turn leaves -------------------------------------------------------------------------------------------

  /** Where a ball in the mouth of a robot lies. */
  function InFront(r: Bot): V3 {
    V3(r.position.x + 95.0 * r.heading.x, 25.0, r.position.y - 95.0 * r.heading.y)
  }

  /** A robot kicks in its turn exactly when the ball is in its mouth, nobody else won or holds it, no lock binds
      it, and it asks to with a kicker that is recharged. */
  lemma KickExactly(c: Config, s: State, r: Bot, k: Key)
    ensures FiresNow(c, s, r, k) <==> Kicks(c, s, r, k)
  {
    ConditionsAre(c, s, r, k);
    hide Settle, InMouth, Blocked, Fires, MouthFull, KeptOut, Locked, Recharged, Asks, Sense;
  }

  /** The branch that a turn takes. */
  lemma TurnIs(c: Config, s: State, r: Bot, k: Key)
    ensures var t := Settle(s, r, k);
            var u := Sense(c, t, r, k);
            Turn(c, s, r, k)
            == if !MouthFull(c, s, r, k) then Leave(t, k)
               else if KeptOut(s, k) then t.(holds := t.holds - {k})
               else if Kicks(c, s, r, k) then Fire(c, u, r, k)
               else if Takes(c, s, r, k) then Dribble(u, k)
               else u
  {
    var t := Settle(s, r, k);
    ConditionsAre(c, s, r, k);
    SenseFires(c, t, r, k);
    hide Settle, InMouth, Blocked, Fires, Catches, MouthFull, KeptOut, Locked, Recharged, Asks, Sense,
         Leave, Fire, Dribble, Bounces;
  }

  lemma SensedIs(c: Config, s: State, r: Bot, k: Key)
    requires MouthFull(c, s, r, k) && !KeptOut(s, k)
    ensures var t := Settle(s, r, k);
            var u := Sense(c, t, r, k);
            u == t.(holds := t.holds + {k}, bounced := u.bounced) && (k in u.bounced <==> k in s.bounced || Bounces(c, s, r, k))
  {
    ConditionsAre(c, s, r, k);
    hide Settle, InMouth, Blocked, MouthFull, KeptOut, Bounces, Catchable, Fires, Catches, Takes;
  }

  /** What a turn leaves of the robot's own lock, recharge, sensor, bounce mark and mouth collider. */
  lemma EntriesExactly(c: Config, s: State, r: Bot, k: Key)
    ensures var v := Turn(c, s, r, k);
            var kicks := Kicks(c, s, r, k);
            && (k in v.kicked <==> kicks || (Locked(s, r, k) && MouthFull(c, s, r, k)))
            && (k in v.kicked ==> if kicks then v.kicked[k] == s.ball.nowMs else k in s.kicked && v.kicked[k] == s.kicked[k])
            && (if kicks then k in v.readyAt && v.readyAt[k] == s.ball.nowMs + 1000.0 * c.rechargeSec
                else v.readyAt == s.readyAt)
            && (k in v.holds <==> MouthFull(c, s, r, k) && !KeptOut(s, k) && !kicks)
            && (k in v.bounced <==> MouthFull(c, s, r, k) && (k in s.bounced || Bounces(c, s, r, k)))
            && (k in v.deployed <==>
                  Takes(c, s, r, k) || (k in s.deployed && MouthFull(c, s, r, k) && !kicks && !(Idle(r) && s.holder == Some(k))))
  {
    TurnIs(c, s, r, k);
    SettledIs(s, r, k);
    TakesIs(c, s, r, k);
    if MouthFull(c, s, r, k) && !KeptOut(s, k) {
      SensedIs(c, s, r, k);
    }
    hide Turn, Settle, Sense, MouthFull, KeptOut, Locked, Kicks, Takes, Bounces, Idle, Launch, Mouth, Parked;
  }

  lemma TakesIs(c: Config, s: State, r: Bot, k: Key)
    ensures Takes(c, s, r, k) ==> MouthFull(c, s, r, k) && !KeptOut(s, k) && !Kicks(c, s, r, k) && !Idle(r)
    ensures Kicks(c, s, r, k) ==> MouthFull(c, s, r, k) && !KeptOut(s, k) && !Idle(r)
    ensures Bounces(c, s, r, k) ==> MouthFull(c, s, r, k) && !KeptOut(s, k)
    ensures KeptOut(s, k) || s.holder.None? || s.holder == Some(k)
  {
    hide MouthFull, Locked, Against;
  }

  /** What a turn leaves of the ball. A robot that takes it holds it and asks for it to be parked; one that
      kicks or lets go of it no longer holds it and asks for a parked body in front of it, at rest for a kick
      and with the robot's measured velocity for a release. Nothing else of the ball changes. */
  lemma BallExactly(c: Config, s: State, r: Bot, k: Key)
    ensures var v := Turn(c, s, r, k);
            var kicks, takes, drops := Kicks(c, s, r, k), Takes(c, s, r, k), Idle(r) && s.holder == Some(k);
            && v.holder == (if takes then Some(k) else if kicks || drops then None else s.holder)
            && v.request == (if takes then Some(Reset(V3(100000.0, 0.0, 100000.0), V3(0.0, 0.0, 0.0)))
                             else if kicks && 50000.0 < s.body.x then Some(Reset(InFront(r), V3(0.0, 0.0, 0.0)))
                             else if drops && 50000.0 < s.body.x then Some(Reset(InFront(r), V3(r.moved.x, 0.0, r.moved.y)))
                             else s.request)
            && (!kicks ==> v.pendingKick == s.pendingKick) && v.ball == s.ball && v.body == s.body
  {
    TurnIs(c, s, r, k);
    SettledIs(s, r, k);
    TakesIs(c, s, r, k);
    assert Mouth(r) == InFront(r);
    if MouthFull(c, s, r, k) && !KeptOut(s, k) {
      SensedIs(c, s, r, k);
    }
    hide Turn, Settle, Sense, MouthFull, KeptOut, Locked, Kicks, Takes, Bounces, Idle, Launch, Mouth;
  }
}
