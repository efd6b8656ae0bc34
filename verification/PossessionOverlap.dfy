/** When mutual exclusion fails, exactly: with a placement outstanding while a robot holds the ball, the
    contest looks for the ball in the holder's mouth and the turns where it was last measured. */
module PossessionOverlap {
  import opened Options
  import opened RealMath
  import opened BallContact
  import opened KickLimits
  import opened Rebound
  import opened Possession
  import opened PossessionInvariant
  import opened PossessionContest
  import opened PossessionExclusion
  import opened PossessionRuns
  import opened PossessionKicks

  // --- the condition --------------------------------------------------------------------------------

  /** a has its turn before b. */
  predicate Before(a: Key, b: Key) {
    (!a.isYellow && b.isYellow) || (a.isYellow == b.isYellow && a.id < b.id)
  }

  /** Recharged, and not locked or locked long enough for the lock to be lifted. */
  predicate MayKickFirst(p: State, k: Key) {
    && KickerReady(p, k)
    && (k in p.kicked ==> p.pendingKick.None? && p.ball.nowMs - p.kicked[k] >= 150.0)
  }

  /** By how much the ball's velocity changed between the last two frames [mm/s]. */
  function VelocityChange(c: Config, p: State): real {
    c.hyp(p.ball.velocity.x * 1000.0 - p.ball.before.x * 1000.0, p.ball.velocity.z * 1000.0 - p.ball.before.z * 1000.0)
  }

  /** Not locked, and recharged or else able to catch the ball at some velocity of its own. */
  predicate MayActNext(c: Config, p: State, k: Key) {
    k !in p.kicked && (KickerReady(p, k) || (k !in p.bounced && VelocityChange(c, p) < 2.0 * c.catchMax))
  }

  ghost predicate TwoAfter(c: Config, teams: Teams, p: State, h: Key, first: Key, second: Key) {
    && Fits(teams, first) && Fits(teams, second) && Before(h, first) && Before(first, second)
    && MayKickFirst(p, first) && MayActNext(c, p, second)
  }

  /** The condition on the state in which the contest starts. */
  ghost predicate TwoMayAct(c: Config, teams: Teams, p: State) {
    && p.holder.Some? && p.ball.placement.Some?
    && exists first, second :: TwoAfter(c, teams, p, p.holder.value, first, second)
  }

  /** Robots that this state can be the measurement of. */
  ghost predicate Showing(c: Config, teams: Teams, scene: Scene, p: State) {
    && |scene.blue| == teams.nb && |scene.yellow| == teams.ny && RealRobots(c, scene) && MouthsOnField(scene)
    && HolderPresent(scene, p) && (p.ball.placement.None? ==> p.ball.position == HeldBall(scene, p))
  }

  ghost function ActorsOf(c: Config, scene: Scene, p: State): seq<Key>
    requires HolderPresent(scene, p)
  {
    KeysDistinct(scene);
    Actors(c, scene, Resolve(c, scene, p), scene.Keys())
  }

  lemma KeysOrdered(scene: Scene)
    ensures forall i, j :: 0 <= i < j < |scene.Keys()| ==> Before(scene.Keys()[i], scene.Keys()[j])
  {
  }

  // --- two actors only under the condition --------------------------------------------------------------

  lemma FiringMeans(c: Config, s: State, r: Bot, k: Key)
    requires Acts(c, s, r, k) && Turn(c, s, r, k).holder.None?
    ensures FiresNow(c, s, r, k) && Turn(c, s, r, k).pendingKick.Some?
  {
    hide Settle, InMouth, Catchable, Launch, Mouth, Parked, AsksKick;
    SenseFires(c, Settle(s, r, k), r, k);
  }

  lemma FirstKicker(c: Config, s: State, r: Bot, k: Key)
    requires FiresNow(c, s, r, k) && s.holder != Some(k)
    ensures MayKickFirst(s, k)
  {
    hide Window, Mouth, NormalSpeed, BodyPoint, Parked, AsksKick;
  }

  /** Two speeds below the limit relative to one point are not far apart. */
  lemma CatchableMeans(c: Config, s: State, r: Bot)
    requires IsHypot(c.hyp) && SlowEnough(c, s, r)
    ensures VelocityChange(c, s) < 2.0 * c.catchMax
  {
    var p := BodyPoint(r, FloorOf(s.ball.position));
    var v, b := Floor(s.ball.velocity), Floor(s.ball.before);
    hide IsHypot, BodyPoint;
    Triangle(c.hyp, v.x - p.x, v.y - p.y, b.x - p.x, b.y - p.y, v.x - b.x, v.y - b.y);
  }

  lemma NextActor(c: Config, s: State, r: Bot, k: Key)
    requires IsHypot(c.hyp) && Acts(c, s, r, k) && s.pendingKick.Some? && s.holder.None?
    ensures MayActNext(c, s, k)
  {
    SettleFree(s, r, k);
    SenseFires(c, Settle(s, r, k), r, k);
    SenseSpeeds(c, s, Settle(s, r, k), r, k);
    hide Settle, InMouth, Blocked, Sense, SlowEnough, VelocityChange, IsHypot;
    if SlowEnough(c, s, r) {
      CatchableMeans(c, s, r);
    }
  }

  /** While a kick waits a robot that does not hold the ball settles to no change. */
  lemma SettleFree(s: State, r: Bot, k: Key)
    requires s.pendingKick.Some? && s.holder.None?
    ensures Settle(s, r, k) == s
  {
    hide NormalSpeed, BodyPoint, Mouth, Parked, LetsGo;
  }

  lemma SameFirst(s: State, v: State, k: Key)
    requires SameEntries(s, v, k) && s.ball == v.ball && s.pendingKick == v.pendingKick
    ensures MayKickFirst(s, k) == MayKickFirst(v, k)
  {
  }

  lemma SameNext(c: Config, s: State, v: State, k: Key)
    requires SameEntries(s, v, k) && s.ball == v.ball
    ensures MayActNext(c, s, k) == MayActNext(c, v, k)
  {
  }

  /** A holder the contest passed over does not act in its turn. */
  lemma HolderIdle(c: Config, scene: Scene, p: State, s: State, k: Key)
    requires RealRobots(c, scene) && scene.Has(k) && k !in p.kicked
    requires !May(c, scene, p, Mouth(scene.At(k)), k) && SameEntries(p, s, k) && s.ball == p.ball
    ensures !Acts(c, s, scene.At(k), k)
  {
    MouthIsInWindow(c, scene.At(k));
    hide Window, Mouth, NormalSpeed, BodyPoint, Parked, RelativeSpeed, IsHypot, Dot, AsksKick, CanRecover;
  }

  /** After n turns of a frame without a winner, in which `actors` acted. */
  ghost predicate Overlapping(c: Config, teams: Teams, p: State, h: Key, s: State, keys: seq<Key>, n: nat, actors: seq<Key>)
    requires n <= |keys|
  {
    && s.winner.None? && s.ball == p.ball && (forall i :: n <= i < |keys| ==> SameEntries(p, s, keys[i]))
    && (actors == [] ==> s.pendingKick == p.pendingKick && (s.holder == Some(h) || (s.holder.None? && Mentions(keys[..n], h))))
    && (|actors| == 1 ==>
          || (s.holder.Some? && Mentions(keys[..n], s.holder.value))
          || (s.holder.None? && s.pendingKick.Some? && Mentions(keys[..n], actors[0]) && Before(h, actors[0])
              && Fits(teams, actors[0]) && MayKickFirst(p, actors[0])))
    && (|actors| >= 2 ==> TwoMayAct(c, teams, p))
  }

  ghost predicate Ordered(keys: seq<Key>) {
    forall i, j :: 0 <= i < j < |keys| ==> Before(keys[i], keys[j])
  }

  lemma MentionedBefore(keys: seq<Key>, n: nat, k: Key)
    requires Ordered(keys) && n < |keys| && Mentions(keys[..n], k)
    ensures Before(k, keys[n]) && k != keys[n]
  {
  }

  lemma OverlapStep(c: Config, teams: Teams, scene: Scene, p: State, h: Key, s: State, keys: seq<Key>, n: nat, actors: seq<Key>)
    requires IsHypot(c.hyp) && RealRobots(c, scene) && AllIn(scene, keys) && Ordered(keys) && n < |keys|
    requires Fits(teams, keys[n]) && p.holder == Some(h) && p.ball.placement.Some? && h !in p.kicked
    requires keys[n] == h ==> !May(c, scene, p, Mouth(scene.At(h)), h)
    requires Overlapping(c, teams, p, h, s, keys, n, actors)
    ensures var k := keys[n];
            Overlapping(c, teams, p, h, Turn(c, s, scene.At(k), k), keys, n + 1,
                        if Acts(c, s, scene.At(k), k) then actors + [k] else actors)
  {
    var k := keys[n];
    var r := scene.At(k);
    var v := Turn(c, s, r, k);
    TurnOwn(c, s, r, k);
    LaterSame(c, p, s, v, keys, n);
    MentionsMore(keys, n, h);
    MentionsMore(keys, n, if s.holder.Some? then s.holder.value else h);
    MentionsMore(keys, n, if |actors| == 1 then actors[0] else h);
    if s.holder.Some? && Mentions(keys[..n], s.holder.value) {
      MentionedBefore(keys, n, s.holder.value);
    }
    hide Turn, Acts, MayKickFirst, MayActNext, SameEntries, RealRobots, IsHypot, May, Mouth, TwoMayAct, TwoAfter, Mentions;
    if !Acts(c, s, r, k) {
      TurnIdle(c, s, r, k);
    } else if |actors| == 0 {
      FirstActs(c, teams, scene, p, h, s, keys, n);
    } else if |actors| == 1 {
      SecondActs(c, teams, scene, p, h, s, keys, n, actors);
    }
  }

  lemma LaterSame(c: Config, p: State, s: State, v: State, keys: seq<Key>, n: nat)
    requires Ordered(keys) && n < |keys| && OwnOnly(s, v, keys[n])
    requires forall i :: n <= i < |keys| ==> SameEntries(p, s, keys[i])
    ensures forall i :: n + 1 <= i < |keys| ==> SameEntries(p, v, keys[i])
  {
    hide SameEntries;
    forall i | n + 1 <= i < |keys| ensures SameEntries(p, v, keys[i]) {
      assert Before(keys[n], keys[i]);
      assert SameEntries(s, v, keys[i]);
      EntriesTrans(p, s, v, keys[i]);
    }
  }

  lemma FirstActs(c: Config, teams: Teams, scene: Scene, p: State, h: Key, s: State, keys: seq<Key>, n: nat)
    requires IsHypot(c.hyp) && RealRobots(c, scene) && AllIn(scene, keys) && Ordered(keys) && n < |keys|
    requires Fits(teams, keys[n]) && h !in p.kicked
    requires keys[n] == h ==> !May(c, scene, p, Mouth(scene.At(h)), h)
    requires Overlapping(c, teams, p, h, s, keys, n, []) && Acts(c, s, scene.At(keys[n]), keys[n])
    ensures var v := Turn(c, s, scene.At(keys[n]), keys[n]);
            || v.holder == Some(keys[n])
            || (v.holder.None? && v.pendingKick.Some? && Before(h, keys[n]) && MayKickFirst(p, keys[n]))
  {
    var k := keys[n];
    var r := scene.At(k);
    if s.holder == Some(h) {
      if k == h {
        HolderIdle(c, scene, p, s, k);
      } else {
        OthersWait(c, s, r, k);
      }
    }
    MentionedBefore(keys, n, h);
    hide Acts, Mouth, MayKickFirst, IsHypot, RealRobots;
    TurnActs(c, s, r, k);
    if Turn(c, s, r, k).holder.None? {
      FiringMeans(c, s, r, k);
      FirstKicker(c, s, r, k);
      assert SameEntries(p, s, k);
      SameFirst(p, s, k);
    }
  }

  lemma SecondActs(c: Config, teams: Teams, scene: Scene, p: State, h: Key, s: State, keys: seq<Key>, n: nat, actors: seq<Key>)
    requires IsHypot(c.hyp) && AllIn(scene, keys) && Ordered(keys) && n < |keys| && |actors| == 1
    requires Fits(teams, keys[n]) && p.holder == Some(h) && p.ball.placement.Some?
    requires Overlapping(c, teams, p, h, s, keys, n, actors) && Acts(c, s, scene.At(keys[n]), keys[n])
    ensures TwoMayAct(c, teams, p)
  {
    var k := keys[n];
    if s.holder.Some? && Mentions(keys[..n], s.holder.value) {
      MentionedBefore(keys, n, s.holder.value);
      OthersWait(c, s, scene.At(k), k);
    }
    MentionedBefore(keys, n, actors[0]);
    NextActor(c, s, scene.At(k), k);
    assert SameEntries(p, s, k);
    SameNext(c, p, s, k);
    assert TwoAfter(c, teams, p, h, actors[0], k);
  }

  lemma {:induction false} OverlapTurns(c: Config, teams: Teams, scene: Scene, p: State, h: Key, s: State, keys: seq<Key>, n: nat)
    requires IsHypot(c.hyp) && RealRobots(c, scene) && AllIn(scene, keys) && Ordered(keys) && n <= |keys|
    requires (forall i :: 0 <= i < |keys| ==> Fits(teams, keys[i])) && p.holder == Some(h) && p.ball.placement.Some? && h !in p.kicked
    requires scene.Has(h) && !May(c, scene, p, Mouth(scene.At(h)), h)
    requires Overlapping(c, teams, p, h, s, keys, 0, [])
    ensures Overlapping(c, teams, p, h, Turns(c, scene, s, keys[..n]), keys, n, Actors(c, scene, s, keys[..n]))
  {
    hide Overlapping, Turn, Acts, Mouth, May, RealRobots, IsHypot;
    if n == 0 {
      assert keys[..0] == [];
    } else {
      OverlapTurns(c, teams, scene, p, h, s, keys, n - 1);
      assert keys[..n][..n - 1] == keys[..n - 1] && keys[..n][n - 1] == keys[n - 1];
      var actors := Actors(c, scene, s, keys[..n - 1]);
      OverlapStep(c, teams, scene, p, h, Turns(c, scene, s, keys[..n - 1]), keys, n - 1, actors);
      assert actors + [] == actors;
    }
  }

  lemma KeysFit(c: Config, teams: Teams, scene: Scene)
    requires |scene.blue| == teams.nb && |scene.yellow| == teams.ny
    ensures forall i :: 0 <= i < |scene.Keys()| ==> Fits(teams, scene.Keys()[i])
  {
  }

  /** Two actors in one frame need the condition. */
  lemma TwoActorsMean(c: Config, teams: Teams, scene: Scene, p: State)
    requires HolderAgrees(p) && Showing(c, teams, scene, p)
    ensures |ActorsOf(c, scene, p)| >= 2 ==> TwoMayAct(c, teams, p)
  {
    var keys := scene.Keys();
    var q := Resolve(c, scene, p);
    KeysDistinct(scene);
    KeysOrdered(scene);
    KeysFit(c, teams, scene);
    ContestOptimal(c, scene, p, HeldBall(scene, p), keys);
    ResolveNobody(c, scene, p);
    assert keys[..|keys|] == keys && keys[..0] == [];
    hide Scene.Keys, Contest, Turns, Actors, Mouth, May, MouthsOnField, Dot, IsHypot, TwoMayAct;
    if q.winner.Some? || p.holder.None? || p.ball.placement.None? {
      ResolveExclusive(c, scene, p);
      ExclusiveTurns(c, scene, q, keys, |keys|, p.pendingKick.Some?);
    } else {
      PassedOver(c, scene, p);
      Unbegun(c, teams, p, p.holder.value, q, keys);
      hide Overlapping, Resolve;
      OverlapTurns(c, teams, scene, p, p.holder.value, q, keys, |keys|);
      assert Overlapping(c, teams, p, p.holder.value, Turns(c, scene, q, keys), keys, |keys|, Actors(c, scene, q, keys));
      OverlapEnd(c, teams, p, p.holder.value, Turns(c, scene, q, keys), keys, Actors(c, scene, q, keys));
    }
  }

  lemma PassedOver(c: Config, scene: Scene, p: State)
    requires HolderPresent(scene, p) && p.holder.Some? && Resolve(c, scene, p).winner.None?
    ensures !May(c, scene, p, Mouth(scene.At(p.holder.value)), p.holder.value)
  {
    KeysDistinct(scene);
    ContestOptimal(c, scene, p, HeldBall(scene, p), scene.Keys());
    hide Contest, Mouth, Scene.Keys, Eligible;
    var i :| 0 <= i < |scene.Keys()| && scene.Keys()[i] == p.holder.value;
    assert !May(c, scene, p, HeldBall(scene, p), scene.Keys()[i]);
  }

  lemma Unbegun(c: Config, teams: Teams, p: State, h: Key, q: State, keys: seq<Key>)
    requires q == p.(winner := None) && p.holder == Some(h)
    ensures Overlapping(c, teams, p, h, q, keys, 0, [])
  {
  }

  lemma OverlapEnd(c: Config, teams: Teams, p: State, h: Key, s: State, keys: seq<Key>, actors: seq<Key>)
    requires Overlapping(c, teams, p, h, s, keys, |keys|, actors)
    ensures |actors| >= 2 ==> TwoMayAct(c, teams, p)
  {
    hide TwoMayAct;
  }

  // --- the condition lets two act -------------------------------------------------------------------------

  /** A robot on the x axis through the ball, with the ball in its mouth. */
  function Facing(ball: V3, facing: real, drive: V2, kick: real, spinner: real): Bot {
    Bot(V2(ball.x - MOUTH_REACH * facing, ball.z), V2(facing, 0.0), drive, 0.0, V2(0.0, 0.0), Kick(kick, 0.0), spinner)
  }

  /** A robot that asks for nothing, with its mouth at (x, z). */
  function Idler(x: real, z: real): Bot {
    Bot(V2(x, z + MOUTH_REACH), V2(0.0, 1.0), V2(0.0, 0.0), 0.0, V2(0.0, 0.0), Kick(0.0, 0.0), 0.0)
  }

  /** Moving along with the ball. */
  function Chaser(p: State): Bot {
    Facing(p.ball.position, 1.0, V2(p.ball.velocity.x * 1000.0, 0.0), 1000.0, 0.0)
  }

  /** Kicks if it is recharged, else catches at the mean of the last two ball velocities. */
  function Opponent(p: State, k: Key): Bot {
    if KickerReady(p, k) then Facing(p.ball.position, -1.0, V2(0.0, 0.0), 1000.0, 0.0)
    else
      Facing(p.ball.position, -1.0,
             V2(-500.0 * (p.ball.velocity.x + p.ball.before.x), 500.0 * (p.ball.velocity.z + p.ball.before.z)), 0.0, 1.0)
  }

  function Cast(p: State, first: Key, second: Key, x: real, z: real, k: Key): Bot {
    if k == first then Chaser(p) else if k == second then Opponent(p, k) else Idler(x, z)
  }

  function Play(teams: Teams, p: State, first: Key, second: Key, x: real, z: real): Scene {
    Scene(seq(teams.nb, i requires 0 <= i < teams.nb => Cast(p, first, second, x, z, Key(false, i))),
          seq(teams.ny, i requires 0 <= i < teams.ny => Cast(p, first, second, x, z, Key(true, i))))
  }

  lemma PlayAt(teams: Teams, p: State, first: Key, second: Key, x: real, z: real, k: Key)
    ensures var scene := Play(teams, p, first, second, x, z);
            (scene.Has(k) <==> Fits(teams, k)) && (scene.Has(k) ==> scene.At(k) == Cast(p, first, second, x, z, k))
  {
    hide Cast;
  }

  lemma FacingSeesBall(c: Config, ball: V3, facing: real, drive: V2, kick: real, spinner: real)
    requires IsHypot(c.hyp) && c.mouthCos < 1.0 && (facing == 1.0 || facing == -1.0) && ball.y < WINDOW_HEIGHT
    ensures var r := Facing(ball, facing, drive, kick, spinner);
            Window(c, r, ball) && Dot(r.heading, r.heading) == 1.0 && Mouth(r) == V3(ball.x, 25.0, ball.z)
  {
    hide IsHypot;
    var r := Facing(ball, facing, drive, kick, spinner);
    if facing == 1.0 {
      SeesBall(c, r, ball, 1.0, -95.0);
    } else {
      SeesBall(c, r, ball, -1.0, 95.0);
    }
  }

  lemma SeesBall(c: Config, r: Bot, ball: V3, facing: real, dx: real)
    requires IsHypot(c.hyp) && c.mouthCos < 1.0 && ball.y < WINDOW_HEIGHT
    requires dx == r.position.x - ball.x && r.position.y == ball.z && r.heading == V2(facing, 0.0)
    requires (facing == 1.0 && dx == -95.0) || (facing == -1.0 && dx == 95.0)
    ensures Window(c, r, ball) && Dot(r.heading, r.heading) == 1.0 && Mouth(r) == V3(ball.x, 25.0, ball.z)
  {
    hide *;
    FacingAxis(r, facing);
    MouthAhead(r, ball, facing, dx);
    DistanceIs95(c, r, ball, dx);
    AheadIs95(r, ball, facing, dx);
    WindowAt95(c, r, ball);
  }

  lemma FacingAxis(r: Bot, facing: real)
    requires r.heading == V2(facing, 0.0) && (facing == 1.0 || facing == -1.0)
    ensures Dot(r.heading, r.heading) == 1.0
  {
    assert facing * facing == 1.0;
  }

  lemma MouthAhead(r: Bot, ball: V3, facing: real, dx: real)
    requires dx == r.position.x - ball.x && r.position.y == ball.z && r.heading == V2(facing, 0.0) && dx == -95.0 * facing
    ensures Mouth(r) == V3(ball.x, 25.0, ball.z)
  {
  }

  lemma AheadIs95(r: Bot, ball: V3, facing: real, dx: real)
    requires dx == r.position.x - ball.x && r.position.y == ball.z && r.heading == V2(facing, 0.0)
    requires (facing == 1.0 && dx == -95.0) || (facing == -1.0 && dx == 95.0)
    ensures Dot(V2(ball.x - r.position.x, ball.z - r.position.y), Normal(r.heading)) == 95.0
  {
    hide *;
    Ahead(r, ball, dx, 0.0, facing);
    Opposite(dx, facing);
  }

  lemma Opposite(dx: real, facing: real)
    requires (facing == 1.0 && dx == -95.0) || (facing == -1.0 && dx == 95.0)
    ensures -(dx * facing) == 95.0
  {
  }

  lemma DistanceIs95(c: Config, r: Bot, ball: V3, dx: real)
    requires IsHypot(c.hyp) && dx == r.position.x - ball.x && r.position.y == ball.z && (dx == 95.0 || dx == -95.0)
    ensures Distance(c, r, ball) == 95.0
  {
    DistanceSquare(c, r, ball, dx, 0.0);
    HypotSquare(c.hyp, r.position.x - ball.x, r.position.y - ball.z);
    assert Distance(c, r, ball) >= 0.0;
    hide IsHypot, Distance;
    Square95(dx);
    SquareEqual(Distance(c, r, ball), 95.0);
  }

  lemma Square95(dx: real)
    requires dx == 95.0 || dx == -95.0
    ensures dx * dx + 0.0 * 0.0 == 9025.0
  {
  }

  lemma WindowAt95(c: Config, r: Bot, ball: V3)
    requires c.mouthCos < 1.0 && ball.y < WINDOW_HEIGHT && Distance(c, r, ball) == 95.0
    requires Dot(V2(ball.x - r.position.x, ball.z - r.position.y), Normal(r.heading)) == 95.0
    ensures Window(c, r, ball)
  {
    hide Distance, Dot, Normal;
  }

  lemma Ahead(r: Bot, ball: V3, dx: real, dz: real, facing: real)
    requires r.heading == V2(facing, 0.0) && dx == r.position.x - ball.x && dz == r.position.y - ball.z
    ensures Dot(V2(ball.x - r.position.x, ball.z - r.position.y), Normal(r.heading)) == -(dx * facing)
  {
    assert (ball.x - r.position.x) * facing == -(dx * facing);
  }

  /** A ball 60 mm to the side is in no mouth. */
  lemma FarBall(c: Config, r: Bot, ball: V3, facing: real)
    requires IsHypot(c.hyp) && r.heading == V2(facing, 0.0) && (facing == 1.0 || facing == -1.0)
    requires Abs(r.position.y - ball.z) >= 60.0
    ensures !Window(c, r, ball)
  {
    var dx, dz := r.position.x - ball.x, r.position.y - ball.z;
    hide IsHypot, Dot, Normal, Distance, Window, Abs;
    DistanceSquare(c, r, ball, dx, dz);
    Ahead(r, ball, dx, dz, facing);
    FarNumbers(dx, dz, facing, dx * facing, dx * dx, dz * dz);
    NotInReach(c, r, ball, Distance(c, r, ball), -(dx * facing), dx * dx + dz * dz);
  }

  lemma NotInReach(c: Config, r: Bot, ball: V3, d: real, ahead: real, square: real)
    requires d == Distance(c, r, ball) && d * d == square && 0.0 < square && WINDOW_REACH * ahead <= square
    requires ahead == Dot(V2(ball.x - r.position.x, ball.z - r.position.y), Normal(r.heading))
    ensures !Window(c, r, ball)
  {
    hide Distance, Dot, Normal;
    NotZero(d, square);
  }

  lemma NotZero(d: real, square: real)
    requires d * d == square && 0.0 < square
    ensures d != 0.0
  {
  }

  lemma FarNumbers(dx: real, dz: real, facing: real, y: real, p: real, q: real)
    requires (facing == 1.0 || facing == -1.0) && Abs(dz) >= 60.0 && y == dx * facing && p == dx * dx && q == dz * dz
    ensures WINDOW_REACH * -y <= p + q && 0.0 < p + q
  {
    assert p == y * y by { assert facing * facing == 1.0; }
    SquareNonNegative(y + 55.0);
    assert (y + 55.0) * (y + 55.0) == p + 110.0 * y + 3025.0;
    SquareNonNegative(dx);
    var d := Abs(dz);
    assert q == d * d;
    ProductMonotone(60.0, d, 60.0);
    ProductMonotone(60.0, d, d);
  }

  lemma DistanceSquare(c: Config, r: Bot, ball: V3, dx: real, dz: real)
    requires IsHypot(c.hyp) && dx == r.position.x - ball.x && dz == r.position.y - ball.z
    ensures Distance(c, r, ball) * Distance(c, r, ball) == dx * dx + dz * dz
  {
    HypotSquare(c.hyp, dx, dz);
    assert Distance(c, r, ball) == c.hyp(dx, dz);
    hide IsHypot, Distance;
    SameFactor(Distance(c, r, ball), Distance(c, r, ball), c.hyp(dx, dz));
    SameFactor(c.hyp(dx, dz), Distance(c, r, ball), c.hyp(dx, dz));
  }

  lemma IdlerWaits(c: Config, s: State, x: real, z: real, k: Key)
    ensures !Acts(c, s, Idler(x, z), k)
    ensures s.holder == Some(k) ==> Turn(c, s, Idler(x, z), k).holder.None?
  {
    hide Window, Launch, RelativeSpeed, Mouth, NormalSpeed, BodyPoint, CanRecover, Parked;
  }

  lemma Freely(c: Config, s: State, r: Bot, k: Key)
    requires s.winner.None? && s.holder.None? && !LetsGo(r) && Window(c, r, s.ball.position)
    requires k in s.kicked ==> Unlocks(s, r, k)
    requires Fires(s.(kicked := s.kicked - {k}), r, k) || Catches(Sense(c, s.(kicked := s.kicked - {k}), r, k), r, k)
    ensures Acts(c, s, r, k)
  {
    assert k !in s.kicked ==> s.kicked - {k} == s.kicked;
    assert Settle(s, r, k) == s.(kicked := s.kicked - {k});
    hide Window, Settle, Sense, Fires, Catches, Unlocks, LetsGo;
  }

  lemma ChaserKeepsUp(p: State)
    ensures NormalSpeed(Plate(BodyPoint(Chaser(p), FloorOf(p.ball.position)), Normal(Chaser(p).heading)), p.ball.velocity) == 0.0
  {
    var r := Chaser(p);
    ChaserDrive(p);
    NoSpin(r, FloorOf(p.ball.position));
    assert Normal(r.heading) == V2(1.0, 0.0);
    hide BodyPoint, DriveVelocity, Normal, Facing;
    AlongX(p.ball.velocity, DriveVelocity(r));
  }

  lemma ChaserDrive(p: State)
    ensures DriveVelocity(Chaser(p)) == V2(p.ball.velocity.x * 1000.0, 0.0)
  {
  }

  lemma AlongX(velocity: V3, point: V2)
    requires point == V2(velocity.x * 1000.0, 0.0)
    ensures NormalSpeed(Plate(point, V2(1.0, 0.0)), velocity) == 0.0
  {
  }

  lemma ChaserUnlocks(p: State, s: State, k: Key)
    requires s.ball == p.ball && s.pendingKick == p.pendingKick && SameEntries(p, s, k) && MayKickFirst(p, k)
    ensures k in s.kicked ==> Unlocks(s, Chaser(p), k)
  {
    ChaserKeepsUp(p);
    hide NormalSpeed, BodyPoint, Normal, Chaser;
  }

  lemma ChaserFires(c: Config, p: State, s: State, k: Key)
    requires IsHypot(c.hyp) && c.mouthCos < 1.0 && p.ball.position.y < WINDOW_HEIGHT
    requires s.ball == p.ball && s.pendingKick == p.pendingKick && SameEntries(p, s, k)
    requires s.winner.None? && s.holder.None? && MayKickFirst(p, k)
    ensures Acts(c, s, Chaser(p), k)
    ensures var v := Turn(c, s, Chaser(p), k); v.pendingKick.Some? && v.holder.None?
  {
    hide *;
    ChaserUnlocks(p, s, k);
    ChaserSees(c, p);
    ReadyAlike(p, s, k);
    KickerActs(c, s, Chaser(p), k);
    ChaserTurn(c, s, Chaser(p), k);
  }

  lemma ChaserSees(c: Config, p: State)
    requires IsHypot(c.hyp) && c.mouthCos < 1.0 && p.ball.position.y < WINDOW_HEIGHT
    ensures Window(c, Chaser(p), p.ball.position) && AsksKick(Chaser(p)) && !LetsGo(Chaser(p)) && !(Chaser(p).spinner > 0.0)
  {
    hide IsHypot, Window, Mouth, Dot, Facing, AsksKick, LetsGo;
    FacingSeesBall(c, p.ball.position, 1.0, V2(p.ball.velocity.x * 1000.0, 0.0), 1000.0, 0.0);
    FacingAsks(p.ball.position, 1.0, V2(p.ball.velocity.x * 1000.0, 0.0));
  }

  lemma FacingAsks(ball: V3, facing: real, drive: V2)
    ensures var r := Facing(ball, facing, drive, 1000.0, 0.0);
            AsksKick(r) && !LetsGo(r) && !(r.spinner > 0.0)
  {
  }

  lemma ReadyAlike(p: State, s: State, k: Key)
    requires s.ball == p.ball && SameEntries(p, s, k) && MayKickFirst(p, k)
    ensures KickerReady(s, k)
  {
  }

  lemma KickerActs(c: Config, s: State, r: Bot, k: Key)
    requires s.winner.None? && s.holder.None? && AsksKick(r) && !LetsGo(r) && KickerReady(s, k) && Window(c, r, s.ball.position)
    requires k in s.kicked ==> Unlocks(s, r, k)
    ensures Acts(c, s, r, k)
  {
    hide Window, AsksKick, LetsGo, Unlocks;
    Freely(c, s, r, k);
  }

  lemma ChaserTurn(c: Config, s: State, r: Bot, k: Key)
    requires Acts(c, s, r, k) && AsksKick(r) && !(r.spinner > 0.0) && s.holder.None?
    ensures var v := Turn(c, s, r, k); v.pendingKick.Some? && v.holder.None?
  {
    hide Window, NormalSpeed, BodyPoint, Mouth, RelativeSpeed, Launch, Parked, AsksKick, CanRecover;
  }

  /** Half way between two velocities each is at half their distance. */
  lemma MeanSpeed(c: Config, p: State, k: Key)
    requires IsHypot(c.hyp) && !KickerReady(p, k) && VelocityChange(c, p) < 2.0 * c.catchMax
    ensures SlowEnough(c, p, Opponent(p, k))
  {
    var m := BodyPoint(Opponent(p, k), FloorOf(p.ball.position));
    assert m == V2(500.0 * (p.ball.velocity.x + p.ball.before.x), 500.0 * (p.ball.velocity.z + p.ball.before.z));
    hide BodyPoint, Opponent, IsHypot, KickerReady;
    var v, b := Floor(p.ball.velocity), Floor(p.ball.before);
    HalfWay(c.hyp, v.x - b.x, v.y - b.y, v.x - m.x, v.y - m.y, b.x - m.x, b.y - m.y);
  }

  lemma HalfWay(hyp: (real, real) -> real, x: real, y: real, a: real, b: real, d: real, e: real)
    requires IsHypot(hyp) && a == 0.5 * x && b == 0.5 * y && d == -0.5 * x && e == -0.5 * y
    ensures hyp(a, b) == 0.5 * hyp(x, y) && hyp(d, e) == 0.5 * hyp(x, y)
  {
    HypotScale(hyp, 0.5, V2(x, y), a, b);
    HypotSquare(hyp, a, b);
    HypotSquare(hyp, d, e);
    hide IsHypot;
    SameSquares(a, b, d, e);
    SquareEqual(hyp(a, b), hyp(d, e));
  }

  lemma SameSquares(a: real, b: real, d: real, e: real)
    requires d == -a && e == -b
    ensures a * a + b * b == d * d + e * e
  {
  }

  lemma OpponentActs(c: Config, p: State, s: State, k: Key)
    requires IsHypot(c.hyp) && c.mouthCos < 1.0 && p.ball.position.y < WINDOW_HEIGHT
    requires s.ball == p.ball && SameEntries(p, s, k)
    requires s.winner.None? && s.holder.None? && MayActNext(c, p, k)
    ensures Acts(c, s, Opponent(p, k), k)
  {
    var r := Opponent(p, k);
    FacingSeesBall(c, p.ball.position, -1.0, r.drive, r.kick.forward, r.spinner);
    assert s.kicked - {k} == s.kicked;
    if !KickerReady(p, k) {
      MeanSpeed(c, p, k);
      SenseSpeeds(c, p, s.(bounced := p.bounced), r, k);
      SenseAs(c, s, r, k);
    }
    hide IsHypot, Window, NormalSpeed, BodyPoint, Normal, Mouth, Dot, RelativeSpeed, Launch, Parked, SlowEnough, VelocityChange, Sense;
    Freely(c, s, r, k);
  }

  lemma SenseAs(c: Config, s: State, r: Bot, k: Key)
    requires s.holder != Some(k) && SlowEnough(c, s, r)
    ensures Sense(c, s, r, k).bounced == s.bounced && Sense(c, s, r, k).kicked == s.kicked && Sense(c, s, r, k).readyAt == s.readyAt
  {
    hide RelativeSpeed;
  }

  // --- the scene in which they do ---------------------------------------------------------------------------

  /** What the scene shows before the n-th turn: the holder sits at index i, the two robots at j and l. */
  ghost predicate Acting(p: State, s: State, keys: seq<Key>, i: nat, j: nat, l: nat, n: nat, actors: seq<Key>)
    requires n <= |keys| && i < j < l < |keys|
  {
    && s.winner.None? && s.ball == p.ball && (forall m :: n <= m < |keys| ==> SameEntries(p, s, keys[m]))
    && (n <= i ==> s.holder == Some(keys[i]))
    && (i < n <= l ==> s.holder.None?)
    && (n <= j ==> s.pendingKick == p.pendingKick)
    && (j < n ==> |actors| >= 1) && (l < n ==> |actors| >= 2)
  }

  lemma ActingStep(c: Config, p: State, r: Bot, x: real, z: real, s: State, keys: seq<Key>, i: nat, j: nat, l: nat, n: nat, actors: seq<Key>)
    requires IsHypot(c.hyp) && c.mouthCos < 1.0 && p.ball.position.y < WINDOW_HEIGHT
    requires Ordered(keys) && n < |keys| && i < j < l < |keys| && Acting(p, s, keys, i, j, l, n, actors)
    requires MayKickFirst(p, keys[j]) && MayActNext(c, p, keys[l])
    requires r == Cast(p, keys[j], keys[l], x, z, keys[n])
    ensures var k := keys[n];
            Acting(p, Turn(c, s, r, k), keys, i, j, l, n + 1, if Acts(c, s, r, k) then actors + [k] else actors)
  {
    var k := keys[n];
    TurnOwn(c, s, r, k);
    LaterSame(c, p, s, Turn(c, s, r, k), keys, n);
    assert SameEntries(p, s, k);
    DistinctAt(keys, i, n);
    DistinctAt(keys, j, n);
    DistinctAt(keys, l, n);
    hide Turn, Acts, MayKickFirst, MayActNext, SameEntries, IsHypot, Chaser, Opponent, Idler;
    if n == j {
      ChaserFires(c, p, s, k);
    } else if n == l {
      OpponentActs(c, p, s, k);
    } else {
      IdlerWaits(c, s, x, z, k);
      TurnIdle(c, s, r, k);
    }
  }

  lemma DistinctAt(keys: seq<Key>, i: nat, n: nat)
    requires Ordered(keys) && i < |keys| && n < |keys|
    ensures keys[i] == keys[n] <==> i == n
  {
    if i < n {
      assert Before(keys[i], keys[n]);
    } else if n < i {
      assert Before(keys[n], keys[i]);
    }
  }

  ghost predicate AllCast(p: State, scene: Scene, keys: seq<Key>, first: Key, second: Key, x: real, z: real)
    requires AllIn(scene, keys)
  {
    forall m :: 0 <= m < |keys| ==> scene.At(keys[m]) == Cast(p, first, second, x, z, keys[m])
  }

  lemma CastAt(p: State, scene: Scene, keys: seq<Key>, first: Key, second: Key, x: real, z: real, m: nat)
    requires AllIn(scene, keys) && AllCast(p, scene, keys, first, second, x, z) && m < |keys|
    ensures scene.At(keys[m]) == Cast(p, first, second, x, z, keys[m])
  {
  }

  lemma {:induction false} ActingTurns(c: Config, p: State, scene: Scene, x: real, z: real, s: State, keys: seq<Key>,
                                       i: nat, j: nat, l: nat, n: nat)
    requires IsHypot(c.hyp) && c.mouthCos < 1.0 && p.ball.position.y < WINDOW_HEIGHT
    requires Ordered(keys) && AllIn(scene, keys) && n <= |keys| && i < j < l < |keys| && Acting(p, s, keys, i, j, l, 0, [])
    requires MayKickFirst(p, keys[j]) && MayActNext(c, p, keys[l])
    requires AllCast(p, scene, keys, keys[j], keys[l], x, z)
    ensures Acting(p, Turns(c, scene, s, keys[..n]), keys, i, j, l, n, Actors(c, scene, s, keys[..n]))
  {
    hide Acting, Turn, Acts, Cast, IsHypot, MayKickFirst, MayActNext, Ordered, AllCast;
    if n == 0 {
      assert keys[..0] == [];
    } else {
      CastAt(p, scene, keys, keys[j], keys[l], x, z, n - 1);
      ActingTurns(c, p, scene, x, z, s, keys, i, j, l, n - 1);
      assert keys[..n][..n - 1] == keys[..n - 1] && keys[..n][n - 1] == keys[n - 1];
      var actors := Actors(c, scene, s, keys[..n - 1]);
      ActingStep(c, p, scene.At(keys[n - 1]), x, z, Turns(c, scene, s, keys[..n - 1]), keys, i, j, l, n - 1, actors);
      assert actors + [] == actors;
    }
  }

  /** Nobody in this scene may act for a ball 60 mm beside the one that is seen. */
  lemma NobodyMay(c: Config, p: State, first: Key, second: Key, x: real, z: real, k: Key, ball: V3)
    requires IsHypot(c.hyp) && Abs(p.ball.position.z - ball.z) >= 60.0
    ensures !Eligible(c, p, Cast(p, first, second, x, z, k), ball, k)
  {
    var r := Cast(p, first, second, x, z, k);
    if k == first {
      FarBall(c, r, ball, 1.0);
    } else if k == second {
      FarBall(c, r, ball, -1.0);
    }
    hide Window, IsHypot;
  }

  lemma CastIsReal(c: Config, p: State, first: Key, second: Key, x: real, z: real, k: Key)
    requires IsHypot(c.hyp) && c.mouthCos < 1.0 && OnField(p.ball.position) && OnField(V3(x, 25.0, z)) && p.ball.position.y < WINDOW_HEIGHT
    ensures var r := Cast(p, first, second, x, z, k);
            Dot(r.heading, r.heading) == 1.0 && OnField(Mouth(r))
  {
    ChaserIs(p);
    OpponentIs(p, k);
    IdlerMouth(x, z);
    Flat(p.ball.position);
    hide Window, IsHypot, Facing, Mouth, Dot, Chaser, Opponent, Idler, OnField;
    if k == first {
      FacingSeesBall(c, p.ball.position, 1.0, Chaser(p).drive, 1000.0, 0.0);
    } else if k == second {
      var o := Opponent(p, k);
      FacingSeesBall(c, p.ball.position, -1.0, o.drive, o.kick.forward, o.spinner);
    }
  }

  lemma ChaserIs(p: State)
    ensures Chaser(p) == Facing(p.ball.position, 1.0, Chaser(p).drive, 1000.0, 0.0)
  {
  }

  lemma OpponentIs(p: State, k: Key)
    ensures var o := Opponent(p, k);
            o == Facing(p.ball.position, -1.0, o.drive, o.kick.forward, o.spinner)
  {
  }

  lemma Flat(p: V3)
    ensures OnField(p) == OnField(V3(p.x, 25.0, p.z))
  {
  }

  lemma IdlerMouth(x: real, z: real)
    ensures Mouth(Idler(x, z)) == V3(x, 25.0, z) && Dot(Idler(x, z).heading, Idler(x, z).heading) == 1.0
  {
  }

  /** 60 mm to the side of the ball. */
  function BesideZ(ball: V3): real {
    if ball.z + 60.0 < FIELD_LIMIT then ball.z + 60.0 else ball.z - 60.0
  }

  /** In the scene cast for them two robots act, and the holder's mouth is at (x, BesideZ). */
  lemma PlayOverlaps(c: Config, teams: Teams, p: State, first: Key, second: Key, x: real)
    requires IsHypot(c.hyp) && c.mouthCos < 1.0 && HolderAgrees(p) && OnField(p.ball.position) && Abs(x) < FIELD_LIMIT
    requires HolderFits(teams, p) && p.holder.Some? && p.ball.placement.Some? && TwoAfter(c, teams, p, p.holder.value, first, second)
    ensures var scene := Play(teams, p, first, second, x, BesideZ(p.ball.position));
            && Showing(c, teams, scene, p) && |ActorsOf(c, scene, p)| >= 2
            && HeldBall(scene, p) == V3(x, 25.0, BesideZ(p.ball.position))
  {
    var z := BesideZ(p.ball.position);
    var scene := Play(teams, p, first, second, x, z);
    var h := p.holder.value;
    assert OnField(V3(x, 25.0, z)) && Abs(p.ball.position.z - z) >= 60.0;
    PlayIsReal(c, teams, p, first, second, x, z);
    PlayAt(teams, p, first, second, x, z, h);
    IdlerMouth(x, z);
    NobodyIn(c, teams, p, first, second, x, z);
    hide IsHypot, OnField, Mouth, Dot, BesideZ, Play, Scene.Keys, MayKickFirst, MayActNext, RealRobots, MouthsOnField, Cast, Contest;
    assert first != h && second != h;
    CastOthers(p, first, second, x, z, h);
    PlayActs(c, teams, p, scene, first, second, x, z);
  }

  lemma CastOthers(p: State, first: Key, second: Key, x: real, z: real, k: Key)
    ensures k != first && k != second ==> Cast(p, first, second, x, z, k) == Idler(x, z)
  {
  }

  lemma PlayIsReal(c: Config, teams: Teams, p: State, first: Key, second: Key, x: real, z: real)
    requires IsHypot(c.hyp) && c.mouthCos < 1.0 && OnField(p.ball.position) && OnField(V3(x, 25.0, z)) && p.ball.position.y < WINDOW_HEIGHT
    ensures var scene := Play(teams, p, first, second, x, z);
            |scene.blue| == teams.nb && |scene.yellow| == teams.ny && RealRobots(c, scene) && MouthsOnField(scene)
  {
    var scene := Play(teams, p, first, second, x, z);
    forall k: Key | scene.Has(k) ensures Dot(scene.At(k).heading, scene.At(k).heading) == 1.0 && OnField(Mouth(scene.At(k))) {
      PlayAt(teams, p, first, second, x, z, k);
      CastIsReal(c, p, first, second, x, z, k);
    }
    hide IsHypot, OnField, Mouth, Dot;
  }

  lemma NobodyIn(c: Config, teams: Teams, p: State, first: Key, second: Key, x: real, z: real)
    requires IsHypot(c.hyp) && Abs(p.ball.position.z - z) >= 60.0
    ensures var scene := Play(teams, p, first, second, x, z);
            Contest(c, scene, p, V3(x, 25.0, z), scene.Keys()).None?
  {
    var scene := Play(teams, p, first, second, x, z);
    var keys := scene.Keys();
    KeysDistinct(scene);
    ContestOptimal(c, scene, p, V3(x, 25.0, z), keys);
    hide Contest, Eligible, IsHypot, Play, Cast, Scene.Keys;
    forall i | 0 <= i < |keys| ensures !May(c, scene, p, V3(x, 25.0, z), keys[i]) {
      PlayAt(teams, p, first, second, x, z, keys[i]);
      NobodyMay(c, p, first, second, x, z, keys[i], V3(x, 25.0, z));
    }
  }

  lemma PlayActs(c: Config, teams: Teams, p: State, scene: Scene, first: Key, second: Key, x: real, z: real)
    requires IsHypot(c.hyp) && c.mouthCos < 1.0 && p.ball.position.y < WINDOW_HEIGHT && scene == Play(teams, p, first, second, x, z)
    requires HolderFits(teams, p) && p.holder.Some? && TwoAfter(c, teams, p, p.holder.value, first, second)
    requires HolderPresent(scene, p) && Contest(c, scene, p, HeldBall(scene, p), scene.Keys()).None?
    ensures |ActorsOf(c, scene, p)| >= 2
  {
    var keys := scene.Keys();
    var i, j, l := Indices(teams, p, scene, first, second, x, z);
    hide TwoAfter, Cast, Play, Contest, Scene.Keys, IsHypot, HeldBall, Turns, Actors, Ordered;
    var q := Resolve(c, scene, p);
    NoWinner(c, scene, p);
    Onset(p, q, keys, i, j, l);
    hide Resolve;
    ActingTurns(c, p, scene, x, z, q, keys, i, j, l, |keys|);
    assert keys[..|keys|] == keys;
  }

  lemma NoWinner(c: Config, scene: Scene, p: State)
    requires HolderPresent(scene, p) && Contest(c, scene, p, HeldBall(scene, p), scene.Keys()).None?
    ensures Resolve(c, scene, p) == p.(winner := None)
  {
    hide Contest, Scene.Keys, HeldBall;
  }

  lemma Onset(p: State, q: State, keys: seq<Key>, i: nat, j: nat, l: nat)
    requires q == p.(winner := None) && i < j < l < |keys| && p.holder == Some(keys[i])
    ensures Acting(p, q, keys, i, j, l, 0, [])
  {
  }

  /** Where the holder and the two robots come in turn order. */
  lemma Indices(teams: Teams, p: State, scene: Scene, first: Key, second: Key, x: real, z: real) returns (i: nat, j: nat, l: nat)
    requires scene == Play(teams, p, first, second, x, z)
    requires HolderFits(teams, p) && p.holder.Some? && Before(p.holder.value, first) && Before(first, second)
    requires Fits(teams, first) && Fits(teams, second)
    ensures var keys := scene.Keys();
            && AllIn(scene, keys) && Ordered(keys) && i < j < l < |keys|
            && keys[i] == p.holder.value && keys[j] == first && keys[l] == second
            && AllCast(p, scene, keys, first, second, x, z)
  {
    var keys := scene.Keys();
    KeysDistinct(scene);
    KeysOrdered(scene);
    PlayAt(teams, p, first, second, x, z, p.holder.value);
    PlayAt(teams, p, first, second, x, z, first);
    PlayAt(teams, p, first, second, x, z, second);
    hide Cast, Play, Scene.Keys;
    forall m | 0 <= m < |keys| ensures scene.At(keys[m]) == Cast(p, first, second, x, z, keys[m]) {
      PlayAt(teams, p, first, second, x, z, keys[m]);
    }
    i := IndexOf(keys, p.holder.value);
    j := IndexOf(keys, first);
    l := IndexOf(keys, second);
    IndexOrder(keys, i, j);
    IndexOrder(keys, j, l);
  }

  lemma IndexOf(keys: seq<Key>, k: Key) returns (i: nat)
    requires Mentions(keys, k)
    ensures i < |keys| && keys[i] == k
  {
    i :| 0 <= i < |keys| && keys[i] == k;
  }

  lemma IndexOrder(keys: seq<Key>, i: nat, j: nat)
    requires Ordered(keys) && i < |keys| && j < |keys| && Before(keys[i], keys[j])
    ensures i < j
  {
    assert !Before(keys[j], keys[i]);
  }

  lemma WithinField(p: V3)
    requires OnField(p)
    ensures Abs(p.x) < FIELD_LIMIT
  {
  }

  /** Mutual exclusion, exactly: for a state in which the contest starts, some robots make two of them
      act in that frame if and only if a robot holds the ball, a placement is outstanding, and after
      the holder in turn order there are two robots of which the first may kick and the second may
      kick or catch. */
  lemma OverlapExactly(c: Config, teams: Teams, p: State)
    requires IsHypot(c.hyp) && c.mouthCos < 1.0 && HolderFits(teams, p) && HolderAgrees(p)
    requires p.holder.Some? ==> OnField(p.ball.position)
    ensures (exists scene :: Showing(c, teams, scene, p) && |ActorsOf(c, scene, p)| >= 2) <==> TwoMayAct(c, teams, p)
  {
    hide HolderAgrees, OnField, TwoAfter, ActorsOf, RealRobots, MouthsOnField, HeldBall, IsHypot;
    if TwoMayAct(c, teams, p) {
      var first, second :| TwoAfter(c, teams, p, p.holder.value, first, second);
      WithinField(p.ball.position);
      PlayOverlaps(c, teams, p, first, second, p.ball.position.x);
    }
    forall scene | Showing(c, teams, scene, p) && |ActorsOf(c, scene, p)| >= 2 ensures TwoMayAct(c, teams, p) {
      TwoActorsMean(c, teams, scene, p);
    }
  }
}
