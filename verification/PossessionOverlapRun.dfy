/** Overlaps in frames and runs: from any state of the overlapping kind a frame lets two robots act, and a
    lawful run from a fresh scene leads there. */
module PossessionOverlapRun {
  import opened Options
  import opened RealMath
  import opened BallContact
  import opened KickLimits
  import opened Rebound
  import opened Possession
  import opened PossessionInvariant
  import opened PossessionContest
  import opened PossessionExclusion
  import opened PossessionRuns
  import opened PossessionKicks
  import opened PossessionOverlap

  /** The state in which the contest starts while the placement does not land. */
  function Clocked(b: State, timestep: real): State {
    b.(ball := b.ball.(nowMs := b.ball.nowMs + timestep, timestepMs := timestep))
  }

  /** The placement is not timed out, and its velocity leaves room to be seen away from it. */
  ghost predicate CanBeAway(c: Config, b: State, timestep: real) {
    && b.ball.placement.Some? && b.ball.nowMs + timestep - b.ball.placement.value.requestedMs < LANDING_TIMEOUT
    && c.hyp(b.ball.placement.value.velocity.x, b.ball.placement.value.velocity.z) < 700000.0
  }

  function AwayX(b: State): real
    requires b.ball.placement.Some?
  {
    if b.ball.placement.value.position.x >= 0.0 then -40000.0 else 40000.0
  }

  lemma LegBelowHypot(hyp: (real, real) -> real, x: real, y: real)
    requires IsHypot(hyp)
    ensures x <= hyp(x, y) && -x <= hyp(x, y)
  {
    HypotSquare(hyp, x, y);
    hide IsHypot;
    SquareNonNegative(y);
    SquareMonotone(x, hyp(x, y));
    assert -x * -x == x * x;
    SquareMonotone(-x, hyp(x, y));
  }

  lemma StaysAway(c: Config, b: State, timestep: real, q: V3)
    requires IsHypot(c.hyp) && CanBeAway(c, b, timestep) && q.x == AwayX(b)
    ensures !Landed(c, b.ball.placement.value, q, b.ball.nowMs + timestep)
  {
    var place := b.ball.placement.value;
    LegBelowHypot(c.hyp, q.x - place.position.x, q.z - place.position.z);
    hide IsHypot;
  }

  lemma NotLandedYet(c: Config, scene: Scene, b: State, timestep: real)
    requires HolderPresent(scene, b) && !Launches(b) && b.ball.placement.Some? && Current(scene, b).Some?
    requires !Landed(c, b.ball.placement.value, Current(scene, b).value, b.ball.nowMs + timestep)
    ensures Prepared(c, scene, b, timestep) == Clocked(b, timestep)
  {
    hide Landed, Measured, Current, OnField;
  }

  /** Whenever the condition holds at the clock of a frame, some robots make two of them act in it. */
  lemma SomeFrameOverlaps(c: Config, teams: Teams, b: State, timestep: real) returns (scene: Scene)
    requires IsHypot(c.hyp) && c.mouthCos < 1.0 && Sound(c, b, []) && HolderFits(teams, b) && b.request.None?
    requires b.holder.Some? && OnField(b.ball.position) && CanBeAway(c, b, timestep) && TwoMayAct(c, teams, Clocked(b, timestep))
    ensures |scene.blue| == teams.nb && |scene.yellow| == teams.ny && RealRobots(c, scene) && MouthsOnField(scene)
    ensures HolderPresent(scene, b) && |ActorsOf(c, scene, Prepared(c, scene, b, timestep))| >= 2
  {
    var p := Clocked(b, timestep);
    var first, second :| TwoAfter(c, teams, p, p.holder.value, first, second);
    Sides(b.body);
    assert !OnField(b.body);
    assert Abs(AwayX(b)) < FIELD_LIMIT;
    hide OnField, Parked, TwoAfter, IsHypot, CanBeAway, Play, BesideZ, RealRobots, MouthsOnField, ActorsOf, Mouth;
    PlayOverlaps(c, teams, p, first, second, AwayX(b));
    scene := Play(teams, p, first, second, AwayX(b), BesideZ(p.ball.position));
    StaysAway(c, b, timestep, HeldBall(scene, b));
    NotLandedYet(c, scene, b, timestep);
  }

  // --- a run that gets there --------------------------------------------------------------------------------

  const HOLDER := Key(false, 0)
  const WEST := Key(false, 1)
  const EAST := Key(false, 2)
  const THREE := Teams(3, 0)
  const SPOT := V3(0.0, 21.0, 0.0)
  const GOAL := V3(4000.0, 21.0, 0.0)
  const PUSH := V3(4000.0, 0.0, 0.0)
  const ASIDE := V3(4240.0, 21.0, 0.0)

  /** A fresh scene with the ball at rest on the spot. */
  function Kickoff(): State {
    State(None, None, SPOT, None, None, Tracked(SPOT, ORIGIN, ORIGIN, [], None, None, 0.0, 16.0), map[], map[], {}, {}, {})
  }

  /** At (x, y) with this heading, asking for nothing but the dribbler. */
  function Standing(x: real, y: real, heading: V2, spinner: real): Bot {
    Bot(V2(x, y), heading, V2(0.0, 0.0), 0.0, V2(0.0, 0.0), Kick(0.0, 0.0), spinner)
  }

  /** One robot dribbles at the spot, two come up to it from both sides. */
  function Dribbling(): Scene {
    Scene([Standing(0.0, 95.0, V2(0.0, 1.0), 1.0), Standing(-155.0, 0.0, V2(1.0, 0.0), 0.0),
           Standing(155.0, 0.0, V2(-1.0, 0.0), 0.0)], [])
  }

  /** The ball is placed 4 m away, rolling at 4 m/s, and the next frame takes 60 ms: the ball is 240 mm
      on, further than a landing is looked for. The robot at the spot catches it where it was last seen
      and drives back 60 mm, while the two others move up 60 mm and kick. */
  function OverlapEvents(): seq<Event> {
    [Placing(GOAL, Some(PUSH)), Frame(Dribbling(), ASIDE, 60.0), Frame(Closing(), PARK, 16.0)]
  }

  /** The holder 60 mm further back, the two others with the spot in their mouths, kicking. */
  function Closing(): Scene {
    Scene([Idler(0.0, 60.0), Facing(V3(0.0, 25.0, 0.0), 1.0, V2(0.0, 0.0), 1000.0, 0.0),
           Facing(V3(0.0, 25.0, 0.0), -1.0, V2(0.0, 0.0), 1000.0, 0.0)], [])
  }

  lemma ClosingIsPlay(p: State)
    requires p.holder == Some(HOLDER) && p.readyAt == map[] && p.ball.position == V3(0.0, 25.0, 0.0) && p.ball.velocity == ORIGIN
    ensures Play(THREE, p, WEST, EAST, 0.0, 60.0) == Closing()
  {
    assert Cast(p, WEST, EAST, 0.0, 60.0, HOLDER) == Idler(0.0, 60.0);
    assert Cast(p, WEST, EAST, 0.0, 60.0, WEST) == Chaser(p);
    assert Cast(p, WEST, EAST, 0.0, 60.0, EAST) == Opponent(p, EAST);
    assert Chaser(p) == Facing(V3(0.0, 25.0, 0.0), 1.0, V2(0.0, 0.0), 1000.0, 0.0);
    assert KickerReady(p, EAST);
    hide Cast, Idler, Facing, Chaser;
  }

  /** After the placement. */
  function Awaited(): State {
    Place(Kickoff(), GOAL, Some(PUSH), 3, 0)
  }

  lemma DribblingKeys()
    ensures Dribbling().Keys() == [HOLDER, WEST, EAST]
  {
  }

  lemma DribblingIsReal(c: Config)
    requires IsHypot(c.hyp) && c.mouthCos < 1.0
    ensures RealRobots(c, Dribbling()) && MouthsOnField(Dribbling())
    ensures Window(c, Dribbling().blue[0], SPOT)
  {
    hide *;
    DribblingBots();
    DribblerSees(c, Dribbling().blue[0]);
    RealScene(c, Dribbling());
  }

  lemma DribblerSees(c: Config, r: Bot)
    requires IsHypot(c.hyp) && c.mouthCos < 1.0 && r == Standing(0.0, 95.0, V2(0.0, 1.0), 1.0)
    ensures Window(c, r, SPOT)
  {
    DistanceIs95OnZ(c, r);
    hide Distance, IsHypot;
    assert SPOT.y < WINDOW_HEIGHT && Dot(V2(SPOT.x - r.position.x, SPOT.z - r.position.y), Normal(r.heading)) == 95.0;
    WindowAt95(c, r, SPOT);
  }

  lemma DistanceIs95OnZ(c: Config, r: Bot)
    requires IsHypot(c.hyp) && r.position == V2(0.0, 95.0)
    ensures Distance(c, r, SPOT) == 95.0
  {
    HypotIs(c.hyp, 0.0, 95.0, 95.0);
  }

  lemma AxisIsUnit(heading: V2)
    requires heading == V2(0.0, 1.0) || heading == V2(1.0, 0.0) || heading == V2(-1.0, 0.0)
    ensures Dot(heading, heading) == 1.0
  {
    hide Dot;
    if heading == V2(0.0, 1.0) {
      AxisDot(0.0, 1.0);
    } else if heading == V2(1.0, 0.0) {
      AxisDot(1.0, 0.0);
    } else {
      AxisDot(-1.0, 0.0);
    }
  }

  lemma AxisDot(x: real, y: real)
    ensures Dot(V2(x, y), V2(x, y)) == x * x + y * y
  {
  }

  /** Standing near the spot. */
  lemma StandingFacts(x: real, y: real, hx: real, hy: real, spinner: real)
    requires -1.0 <= hx <= 1.0 && -1.0 <= hy <= 1.0 && -1000.0 <= x <= 1000.0 && -1000.0 <= y <= 1000.0
    ensures var r := Standing(x, y, V2(hx, hy), spinner);
            && OnField(Mouth(r)) && !AsksKick(r) && (spinner <= 0.0 ==> LetsGo(r))
            && r.drive == V2(0.0, 0.0) && r.spin == 0.0 && r.spinner == spinner && r.heading == V2(hx, hy)
  {
  }

  lemma DribblingShape()
    ensures var scene := Dribbling();
            && |scene.blue| == 3 && scene.yellow == []
            && scene.blue[0] == Standing(0.0, 95.0, V2(0.0, 1.0), 1.0)
            && scene.blue[1] == Standing(-155.0, 0.0, V2(1.0, 0.0), 0.0)
            && scene.blue[2] == Standing(155.0, 0.0, V2(-1.0, 0.0), 0.0)
  {
    hide Standing;
  }

  lemma DribblingBots()
    ensures var scene := Dribbling();
            && |scene.blue| == 3 && scene.yellow == []
            && scene.blue[0] == Standing(0.0, 95.0, V2(0.0, 1.0), 1.0)
            && LetsGo(scene.blue[1]) && LetsGo(scene.blue[2])
            && forall i :: 0 <= i < 3 ==> Dot(scene.blue[i].heading, scene.blue[i].heading) == 1.0 && OnField(Mouth(scene.blue[i]))
  {
    DribblingShape();
    hide *;
    StandingFacts(0.0, 95.0, 0.0, 1.0, 1.0);
    StandingFacts(-155.0, 0.0, 1.0, 0.0, 0.0);
    StandingFacts(155.0, 0.0, -1.0, 0.0, 0.0);
    AxisIsUnit(V2(0.0, 1.0));
    AxisIsUnit(V2(1.0, 0.0));
    AxisIsUnit(V2(-1.0, 0.0));
    var scene := Dribbling();
    forall i | 0 <= i < 3 ensures Dot(scene.blue[i].heading, scene.blue[i].heading) == 1.0 && OnField(Mouth(scene.blue[i])) {
      assert i == 0 || i == 1 || i == 2;
    }
  }

  lemma RealScene(c: Config, scene: Scene)
    requires IsHypot(c.hyp) && c.mouthCos < 1.0 && |scene.blue| == 3 && scene.yellow == []
    requires forall i :: 0 <= i < 3 ==> Dot(scene.blue[i].heading, scene.blue[i].heading) == 1.0 && OnField(Mouth(scene.blue[i]))
    ensures RealRobots(c, scene) && MouthsOnField(scene)
  {
    hide IsHypot, Dot, OnField, Mouth;
  }

  /** Not landed: 240 mm on, 60 ms after the request. */
  lemma AsideIsNotLanded(c: Config)
    requires IsHypot(c.hyp)
    ensures !Landed(c, Placement(GOAL, PUSH, 0.0), ASIDE, 60.0)
  {
    LegBelowHypot(c.hyp, 240.0, 0.0);
    HypotIs(c.hyp, 4000.0, 0.0, 4000.0);
    hide IsHypot;
  }

  /** The state in which the contest of the second event starts. */
  function Contested(): State {
    Clocked(Stepped(Awaited(), ASIDE), 60.0)
  }

  lemma ContestedIs(c: Config)
    requires IsHypot(c.hyp)
    ensures Prepared(c, Dribbling(), Stepped(Awaited(), ASIDE), 60.0) == Contested()
    ensures var p := Contested();
            && p.holder.None? && p.pendingKick.None? && p.readyAt == map[] && p.kicked == map[] && p.bounced == {}
            && p.ball == Tracked(SPOT, ORIGIN, ORIGIN, [], None, Some(Placement(GOAL, PUSH, 0.0)), 60.0, 60.0)
  {
    AsideIsNotLanded(c);
    hide IsHypot, Landed, TeamSet;
    NotLandedYet(c, Dribbling(), Stepped(Awaited(), ASIDE), 60.0);
  }

  lemma OnlyHolderMay(c: Config)
    requires IsHypot(c.hyp) && c.mouthCos < 1.0
    ensures var q := Resolve(c, Dribbling(), Contested());
            q == Contested().(winner := q.winner) && (q.winner.Some? ==> q.winner == Some(HOLDER))
  {
    hide IsHypot, Window, Contested, Contest, Dribbling, Scene.Keys, LetsGo, Mouth, OnField, Dot, Eligible, Standing;
    var scene, p := Dribbling(), Contested();
    var keys := scene.Keys();
    DribblingKeys();
    DribblingBots();
    ContestedIs(c);
    KeysDistinct(scene);
    ContestOptimal(c, scene, p, SPOT, keys);
    QuietMayNot(c, p, scene.blue[1], SPOT, WEST);
    QuietMayNot(c, p, scene.blue[2], SPOT, EAST);
    var best := Contest(c, scene, p, SPOT, keys);
    if best.Some? {
      var i :| Best(c, scene, p, SPOT, keys, i, best.value);
      assert keys[i] == HOLDER;
    }
  }

  lemma QuietMayNot(c: Config, p: State, r: Bot, ball: V3, k: Key)
    requires LetsGo(r)
    ensures !Eligible(c, p, r, ball, k)
  {
    hide Window;
  }

  /** A recharged or unrecharged robot that only dribbles takes a slow ball in its mouth. */
  lemma DribblerTakes(c: Config, s: State, r: Bot, k: Key)
    requires s.holder.None? && (s.winner.Some? ==> s.winner == Some(k)) && k !in s.kicked && k !in s.bounced
    requires !AsksKick(r) && r.spinner > 0.0 && Window(c, r, s.ball.position) && SlowEnough(c, s, r)
    ensures var v := Turn(c, s, r, k);
            v.holder == Some(k) && v.pendingKick == s.pendingKick && v.readyAt == s.readyAt
  {
    SenseAs(c, s, r, k);
    assert Settle(s, r, k) == s;
    hide Window, RelativeSpeed, SlowEnough, Settle, AsksKick, Launch, Mouth, Parked, Sense, Fire, Leave;
    SensePending(c, s, r, k);
  }

  lemma SensePending(c: Config, s: State, r: Bot, k: Key)
    ensures Sense(c, s, r, k).pendingKick == s.pendingKick
  {
    hide Catchable;
  }

  /** A robot that asks for nothing and does not hold the ball leaves these alone. */
  lemma QuietTurn(c: Config, s: State, r: Bot, k: Key)
    requires LetsGo(r) && s.holder != Some(k)
    ensures var v := Turn(c, s, r, k);
            v.holder == s.holder && v.pendingKick == s.pendingKick && v.readyAt == s.readyAt
  {
    QuietWaits(c, s, r, k);
    hide Turn, Acts, FiresNow, LetsGo;
    TurnIdle(c, s, r, k);
    OtherTurn(c, s, r, k);
  }

  lemma QuietWaits(c: Config, s: State, r: Bot, k: Key)
    requires LetsGo(r)
    ensures !Acts(c, s, r, k) && !FiresNow(c, s, r, k)
  {
    hide Settle, InMouth, Blocked, Sense;
  }

  lemma StandingBotIsSlow(c: Config, s: State, r: Bot)
    requires IsHypot(c.hyp) && 0.0 < c.catchMax && s.ball.velocity == ORIGIN && s.ball.before == ORIGIN
    requires r.drive == V2(0.0, 0.0) && r.spin == 0.0
    ensures SlowEnough(c, s, r)
  {
    HypotIs(c.hyp, 0.0, 0.0, 0.0);
    hide IsHypot;
    NoSpin(r, FloorOf(s.ball.position));
    assert DriveVelocity(r) == V2(0.0, 0.0);
    hide DriveVelocity, BodyPoint;
  }

  lemma ThreeTurns(c: Config, scene: Scene, q: State)
    requires |scene.blue| == 3
    ensures AllIn(scene, [HOLDER, WEST, EAST])
    ensures var t := Turn(c, q, scene.blue[0], HOLDER);
            var u := Turn(c, t, scene.blue[1], WEST);
            Turns(c, scene, q, [HOLDER, WEST, EAST]) == Turn(c, u, scene.blue[2], EAST)
  {
    hide Turn;
    var three, two, one := [HOLDER, WEST, EAST], [HOLDER, WEST], [HOLDER];
    assert three[..2] == two && two[..1] == one && one[..0] == [];
    assert Turns(c, scene, q, []) == q;
    assert Turns(c, scene, q, one) == Turn(c, q, scene.blue[0], HOLDER);
  }

  /** The catch in the second event. */
  lemma CatchFrame(c: Config)
    requires IsHypot(c.hyp) && c.mouthCos < 1.0 && 0.0 < c.catchMax
    ensures var v := Update(c, Dribbling(), Stepped(Awaited(), ASIDE), 60.0);
            && v.holder == Some(HOLDER) && v.pendingKick.None? && v.readyAt == map[] && v.ball == Contested().ball
  {
    hide IsHypot, Window, Contested, Awaited, Dribbling, Resolve, Prepared, Turn, Turns, Standing, LetsGo, Mouth, OnField, Dot, Update, Stepped,
         SlowEnough, AsksKick, RealRobots, MouthsOnField, Scene.Keys;
    var scene, p := Dribbling(), Contested();
    DribblingKeys();
    DribblingBots();
    ContestedIs(c);
    OnlyHolderMay(c);
    CatcherBot();
    DribblingIsReal(c);
    var q := Resolve(c, scene, p);
    StandingBotIsSlow(c, q, scene.blue[0]);
    DribblerTakes(c, q, scene.blue[0], HOLDER);
    var t := Turn(c, q, scene.blue[0], HOLDER);
    QuietTurn(c, t, scene.blue[1], WEST);
    var u := Turn(c, t, scene.blue[1], WEST);
    QuietTurn(c, u, scene.blue[2], EAST);
    ThreeTurns(c, scene, q);
    AwaitedIsFree();
    UpdateIs(c, scene, Stepped(Awaited(), ASIDE), 60.0, p, q);
    TurnsOwn(c, scene, q, [HOLDER, WEST, EAST]);
  }

  lemma CatcherBot()
    ensures |Dribbling().blue| == 3
    ensures var r := Dribbling().blue[0];
            r.drive == V2(0.0, 0.0) && r.spin == 0.0 && !AsksKick(r) && r.spinner > 0.0
  {
    DribblingShape();
    hide *;
    StandingFacts(0.0, 95.0, 0.0, 1.0, 1.0);
  }

  lemma AwaitedIsFree()
    ensures Awaited().holder.None? && Stepped(Awaited(), ASIDE).holder.None?
  {
    hide TeamSet;
  }

  lemma UpdateIs(c: Config, scene: Scene, b: State, timestep: real, p: State, q: State)
    requires HolderPresent(scene, b) && p == Prepared(c, scene, b, timestep) && HolderPresent(scene, p) && q == Resolve(c, scene, p)
    requires scene.Keys() == [HOLDER, WEST, EAST] && AllIn(scene, [HOLDER, WEST, EAST])
    ensures Update(c, scene, b, timestep) == Turns(c, scene, q, [HOLDER, WEST, EAST])
  {
    hide Prepared, Resolve, Turns, Scene.Keys;
  }

  /** After the catch: held, the placement still awaited, nobody recharging or locked. */
  lemma AfterCatch(c: Config)
    requires IsHypot(c.hyp) && c.mouthCos < 1.0 && 0.0 < c.catchMax
    ensures var s := FrameStep(c, Dribbling(), Awaited(), ASIDE, 60.0);
            && s.holder == Some(HOLDER) && s.pendingKick.None? && s.readyAt == map[] && s.kicked == map[]
            && s.ball.velocity == ORIGIN && s.ball.nowMs == 60.0 && s.ball.placement == Some(Placement(GOAL, PUSH, 0.0))
            && Rest(c, s) && s.ball.position == V3(0.0, 25.0, 0.0)
  {
    hide IsHypot, Update, Stepped, Awaited, Dribbling, Contested, Prepared, Publish, Rest, OnField, FrameStep;
    AwaitedIsFree();
    DribblingRests(c);
    FrameStepIs(c, Dribbling(), Awaited(), ASIDE, 60.0);
    CatchFrame(c);
    ContestedIs(c);
    PublishEntries(Dribbling(), Update(c, Dribbling(), Stepped(Awaited(), ASIDE), 60.0));
    CatcherMouth(Update(c, Dribbling(), Stepped(Awaited(), ASIDE), 60.0));
    NoLocks(c, FrameStep(c, Dribbling(), Awaited(), ASIDE, 60.0));
  }

  lemma CatcherMouth(v: State)
    requires v.holder == Some(HOLDER)
    ensures HolderPresent(Dribbling(), v) && Publish(Dribbling(), v).ball.position == V3(0.0, 25.0, 0.0)
  {
  }

  lemma DribblingRests(c: Config)
    requires IsHypot(c.hyp) && c.mouthCos < 1.0
    ensures HolderPresent(Dribbling(), Awaited())
    ensures var s := FrameStep(c, Dribbling(), Awaited(), ASIDE, 60.0); Rest(c, s) && OnField(s.ball.position)
  {
    hide IsHypot, Awaited, Dribbling, Rest, OnField, Parked, Target, RealRobots, MouthsOnField, FrameStep;
    AwaitedRests(c);
    AwaitedIsFree();
    DribblingIsReal(c);
    AsideOnField();
    FrameRests(c, Dribbling(), Awaited(), ASIDE, 60.0);
  }

  lemma FrameStepIs(c: Config, scene: Scene, s: State, body: V3, timestep: real)
    requires HolderPresent(scene, s)
    ensures HolderPresent(scene, Stepped(s, body)) && HolderPresent(scene, Update(c, scene, Stepped(s, body), timestep))
    ensures FrameStep(c, scene, s, body, timestep) == Publish(scene, Update(c, scene, Stepped(s, body), timestep))
  {
    hide Update, Publish;
  }

  lemma NoLocks(c: Config, s: State)
    requires Rest(c, s)
    ensures s.readyAt == map[] ==> s.kicked == map[]
  {
    assert forall k :: k in s.kicked ==> k in s.readyAt;
  }

  lemma AsideOnField()
    ensures OnField(Target(Awaited())) && OnField(ASIDE) && !Parked(Target(Awaited())) && Awaited().holder.None?
  {
  }

  lemma KickoffIsFresh()
    ensures Fresh(Kickoff()) && OnField(GOAL) && HolderFits(THREE, Kickoff())
  {
  }

  lemma AwaitedRests(c: Config)
    ensures Rest(c, Awaited())
  {
    KickoffIsFresh();
    FreshRests(c, Kickoff());
    hide Fresh, Rest, Place, Kickoff, OnField;
    PlaceRests(c, THREE, Kickoff(), GOAL, Some(PUSH));
  }

  lemma SecondKickers(c: Config, s: State)
    requires s.readyAt == map[] && s.kicked == map[]
    ensures TwoAfter(c, THREE, s, HOLDER, WEST, EAST)
  {
    hide VelocityChange;
  }

  /** The failure is reachable: from a fresh scene a placement, a frame in which a robot catches the
      ball where it was last seen, and a frame in which two other robots kick it. */
  lemma TwoActInReachableFrame(c: Config)
    requires IsHypot(c.hyp) && c.mouthCos < 1.0 && 0.0 < c.catchMax
    ensures var s, events := Kickoff(), OverlapEvents();
            && Fresh(s) && HolderFits(THREE, s) && AllFit(THREE, events) && LawfulRun(c, THREE, s, events)
            && |FrameActors(c, THREE, Run(c, THREE, s, events, 2), events[2])| >= 2
  {
    KickoffIsFresh();
    AfterCatch(c);
    var t := FrameStep(c, Dribbling(), Awaited(), ASIDE, 60.0);
    var last := ThirdFrame(c, t);
    ClosingIsPlay(Clocked(Stepped(t, PARK), 16.0));
    hide Play, IsHypot, Kickoff, Awaited, FrameStep, Dribbling, Closing, RealRobots, MouthsOnField, ActorsOf, Resolve, Prepared, Rest, Fresh, LawfulRun, Run;
    EventsRun(c, t);
    EventsLawful(c, t);
  }

  lemma ThirdFrame(c: Config, t: State) returns (last: Scene)
    requires IsHypot(c.hyp) && c.mouthCos < 1.0 && Rest(c, t) && t.ball.position == V3(0.0, 25.0, 0.0)
    requires t.holder == Some(HOLDER) && t.readyAt == map[] && t.kicked == map[]
    requires t.ball.nowMs == 60.0 && t.ball.placement == Some(Placement(GOAL, PUSH, 0.0))
    ensures |last.blue| == 3 && last.yellow == [] && RealRobots(c, last) && MouthsOnField(last)
    ensures HolderPresent(last, Stepped(t, PARK))
    ensures |ActorsOf(c, last, Prepared(c, last, Stepped(t, PARK), 16.0))| >= 2
    ensures last == Play(THREE, Clocked(Stepped(t, PARK), 16.0), WEST, EAST, 0.0, 60.0)
  {
    var b := Stepped(t, PARK);
    var p := Clocked(b, 16.0);
    ParkIsParked(t);
    assert OnField(p.ball.position) && Abs(0.0) < FIELD_LIMIT && BesideZ(p.ball.position) == 60.0;
    Sides(b.body);
    hide IsHypot, RealRobots, MouthsOnField, OnField, Parked, ActorsOf, Prepared, TwoAfter, Rest, Landed, Play, BesideZ, Mouth;
    SteppedSound(c, t, PARK);
    SecondKickers(c, p);
    PlayOverlaps(c, THREE, p, WEST, EAST, 0.0);
    last := Play(THREE, p, WEST, EAST, 0.0, 60.0);
    StillRolling(c);
    NotLandedYet(c, last, b, 16.0);
  }

  /** The held ball is 4 m from where the placement is expected. */
  lemma StillRolling(c: Config)
    requires IsHypot(c.hyp)
    ensures !Landed(c, Placement(GOAL, PUSH, 0.0), V3(0.0, 25.0, 60.0), 76.0)
  {
    LegBelowHypot(c.hyp, -4000.0, 60.0);
    HypotIs(c.hyp, 4000.0, 0.0, 4000.0);
    hide IsHypot;
  }

  lemma EventsLawful(c: Config, t: State)
    requires IsHypot(c.hyp) && c.mouthCos < 1.0 && HolderFits(THREE, Kickoff()) && AllFit(THREE, OverlapEvents())
    requires var events := OverlapEvents();
             && Run(c, THREE, Kickoff(), events, 0) == Kickoff() && Run(c, THREE, Kickoff(), events, 1) == Awaited()
             && Run(c, THREE, Kickoff(), events, 2) == t
    requires RealRobots(c, Closing()) && MouthsOnField(Closing()) && t.holder.Some? && ParkedWhileHeld(t)
    ensures LawfulRun(c, THREE, Kickoff(), OverlapEvents())
  {
    OverlapEventsAre();
    hide *;
    KickoffIsFresh();
    LawfulPlacing(c, Kickoff(), GOAL, Some(PUSH));
    AsideOnField();
    DribblingIsReal(c);
    LawfulFrameTo(c, Awaited(), Dribbling(), ASIDE, 60.0);
    ParkIsParked(t);
    LawfulFrameTo(c, t, Closing(), PARK, 16.0);
    ThreeLawful(c, OverlapEvents());
  }

  lemma OverlapEventsAre()
    ensures var events := OverlapEvents();
            && |events| == 3 && events[0] == Placing(GOAL, Some(PUSH)) && events[1] == Frame(Dribbling(), ASIDE, 60.0)
            && events[2] == Frame(Closing(), PARK, 16.0)
  {
    hide Dribbling, Closing;
  }

  lemma LawfulPlacing(c: Config, s: State, position: V3, velocity: Option<V3>)
    requires OnField(position)
    ensures Lawful(c, s, Placing(position, velocity))
  {
    hide OnField;
  }

  lemma LawfulFrameTo(c: Config, s: State, scene: Scene, body: V3, timestep: real)
    requires 0.0 < timestep && RealRobots(c, scene) && MouthsOnField(scene)
    requires (OnField(Target(s)) ==> OnField(body)) && (Parked(Target(s)) ==> Parked(body))
    ensures Lawful(c, s, Frame(scene, body, timestep))
  {
    hide RealRobots, MouthsOnField, OnField, Parked, Target;
  }

  lemma ThreeLawful(c: Config, events: seq<Event>)
    requires HolderFits(THREE, Kickoff()) && AllFit(THREE, events) && |events| == 3
    requires Lawful(c, Run(c, THREE, Kickoff(), events, 0), events[0])
    requires Lawful(c, Run(c, THREE, Kickoff(), events, 1), events[1])
    requires Lawful(c, Run(c, THREE, Kickoff(), events, 2), events[2])
    ensures LawfulRun(c, THREE, Kickoff(), events)
  {
    hide Lawful, Run, HolderFits, AllFit, Kickoff;
    forall i | 0 <= i < |events| ensures Lawful(c, Run(c, THREE, Kickoff(), events, i), events[i]) {
      assert i == 0 || i == 1 || i == 2;
    }
  }

  lemma ParkIsParked(t: State)
    requires t.holder.Some? && ParkedWhileHeld(t)
    ensures Parked(PARK) && Parked(Target(t)) && !OnField(Target(t))
  {
    Sides(Target(t));
  }

  lemma EventsRun(c: Config, t: State)
    requires t == FrameStep(c, Dribbling(), Awaited(), ASIDE, 60.0) && HolderFits(THREE, Kickoff())
    requires |Closing().blue| == 3 && Closing().yellow == []
    ensures AllFit(THREE, OverlapEvents())
    ensures var events := OverlapEvents();
            && Run(c, THREE, Kickoff(), events, 0) == Kickoff() && Run(c, THREE, Kickoff(), events, 1) == Awaited()
            && Run(c, THREE, Kickoff(), events, 2) == t
  {
    DribblingShape();
    hide FrameStep, Dribbling, Closing, Place, Kickoff, Standing;
    var events := OverlapEvents();
    assert AllFit(THREE, events);
    assert Run(c, THREE, Kickoff(), events, 1) == Step(c, THREE, Kickoff(), events[0]);
    assert Run(c, THREE, Kickoff(), events, 2) == Step(c, THREE, Run(c, THREE, Kickoff(), events, 1), events[1]);
  }
}
