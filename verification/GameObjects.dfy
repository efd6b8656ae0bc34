/** The ball and possession part of the scene object, updated in place frame by frame. Every method is
    tied to the value-level protocol of Possession. */
module GameObjectsClass {
  import opened Options
  import opened RealMath
  import opened BallContact
  import opened KickLimits
  import opened Rebound
  import opened Possession
  import opened PossessionInvariant
  import opened PossessionRuns

  lemma TeamKeysGrow(isYellow: bool, n: nat)
    ensures TeamKeys(isYellow, n + 1) == TeamKeys(isYellow, n) + [Key(isYellow, n)]
  {
  }

  function Leading(best: Option<Key>, kick: bool, distance: real): Option<Candidate> {
    if best.None? then None else Some(Candidate(best.value, kick, distance))
  }

  lemma NoContest(c: Config, scene: Scene, s: State, ball: V3)
    ensures AllIn(scene, []) && Contest(c, scene, s, ball, []) == None
  {
  }

  lemma ContestAppend(c: Config, scene: Scene, s: State, ball: V3, keys: seq<Key>, k: Key)
    requires AllIn(scene, keys) && scene.Has(k)
    ensures AllIn(scene, keys + [k])
    ensures Contest(c, scene, s, ball, keys + [k])
         == if Eligible(c, s, scene.At(k), ball, k) then Leader(Contest(c, scene, s, ball, keys), Bid(c, s, scene.At(k), ball, k))
            else Contest(c, scene, s, ball, keys)
  {
    hide Eligible, Bid, Leader;
    assert (keys + [k])[..|keys|] == keys;
  }

  lemma TurnsStep(c: Config, scene: Scene, s: State, keys: seq<Key>, k: Key)
    requires AllIn(scene, keys) && scene.Has(k)
    ensures AllIn(scene, keys + [k])
    ensures Turns(c, scene, s, keys + [k]) == Turn(c, Turns(c, scene, s, keys), scene.At(k), k)
  {
    hide Turn;
    assert (keys + [k])[..|keys|] == keys;
  }

  lemma {:induction false} TurnsAppend(c: Config, scene: Scene, s: State, a: seq<Key>, b: seq<Key>)
    requires AllIn(scene, a) && AllIn(scene, b)
    ensures AllIn(scene, a + b)
    ensures Turns(c, scene, s, a + b) == Turns(c, scene, Turns(c, scene, s, a), b)
  {
    hide Turn;
    if b == [] {
      assert a + b == a;
    } else {
      var n := |b| - 1;
      TurnsAppend(c, scene, s, a, b[..n]);
      assert (a + b)[..|a + b| - 1] == a + b[..n];
    }
  }

  class GameObjects {
    const c: Config
    var holder: Option<Key>
    var contestWinner: Option<Key>
    var body: V3
    var request: Option<Reset>
    var pendingKick: Option<V3>
    var ball: Tracked
    var kickReadyAtMs: map<Key, real>
    var kickedBallInMouth: map<Key, real>
    var bouncedBallInMouth: set<Key>
    var holds: set<Key>
    var deployed: set<Key>

    constructor (c: Config, position: V3)
      ensures Value() == State(None, None, position, None, None, Tracked(ORIGIN, ORIGIN, ORIGIN, [], None, None, 0.0, 1000.0 / 60.0),
                               map[], map[], {}, {}, {})
      ensures this.c == c
    {
      this.c := c;
      holder, contestWinner, body, request, pendingKick := None, None, position, None, None;
      ball := Tracked(ORIGIN, ORIGIN, ORIGIN, [], None, None, 0.0, 1000.0 / 60.0);
      kickReadyAtMs, kickedBallInMouth, bouncedBallInMouth, holds, deployed := map[], map[], {}, {}, {};
    }

    function Value(): State
      reads this
    {
      State(holder, contestWinner, body, request, pendingKick, ball,
            kickReadyAtMs, kickedBallInMouth, bouncedBallInMouth, holds, deployed)
    }

    // --- Control ----------------------------------------------------------------------------------------

    method KickBall(r: Bot, k: Key, launch: V3)
      modifies this
      ensures Value() == old(AfterKick(Value(), r, k, launch))
    {
      hide Mouth, Parked;
      holds := holds - {k};
      deployed := deployed - {k};
      if Parked(body) {
        request := Some(Reset(Mouth(r), ORIGIN));
      }
      holder := None;
      pendingKick := Some(launch);
    }

    method ReleaseBall(r: Bot, k: Key)
      modifies this
      ensures Value() == old(Release(Value(), r, k))
    {
      hide Mouth, Parked;
      if holder != Some(k) {
        return;
      }
      holder := None;
      if Parked(body) {
        request := Some(Reset(Mouth(r), V3(r.moved.x, 0.0, r.moved.y)));
      }
      deployed := deployed - {k};
    }

    method DribbleBall(k: Key)
      modifies this
      ensures Value() == old(Dribble(Value(), k))
    {
      holder := Some(k);
      request := Some(Reset(PARK, ORIGIN));
      deployed := deployed + {k};
    }

    // --- the contest -----------------------------------------------------------------------------------

    /** The two-team fold over all robots. */
    method FindWinner(scene: Scene, bp: V3) returns (best: Option<Key>)
      ensures var winner := Contest(c, scene, Value(), bp, scene.Keys());
              best == if winner.Some? then Some(winner.value.key) else None
    {
      hide Eligible, Mouth, Distance, Window, WantsKick, Contest, Effective;
      ghost var s := Value();
      best := None;
      var bestKick := false;
      var bestDist := 1000000000.0;
      ghost var keys: seq<Key> := [];
      NoContest(c, scene, s, bp);
      var team := 0;
      while team < 2
        invariant 0 <= team <= 2
        invariant keys == (if team == 0 then [] else if team == 1 then TeamKeys(false, |scene.blue|) else scene.Keys())
        invariant AllIn(scene, keys)
        invariant Contest(c, scene, s, bp, keys) == Leading(best, bestKick, bestDist)
      {
        var isYellow := team == 1;
        ghost var before := keys;
        var i := 0;
        while i < |scene.Team(isYellow)|
          invariant 0 <= i <= |scene.Team(isYellow)|
          invariant keys == before + TeamKeys(isYellow, i) && AllIn(scene, keys)
          invariant Contest(c, scene, s, bp, keys) == Leading(best, bestKick, bestDist)
        {
          var k := Key(isYellow, i);
          var r := scene.At(k);
          ContestAppend(c, scene, s, bp, keys, k);
          TeamKeysGrow(isYellow, i);
          assert keys + [k] == before + TeamKeys(isYellow, i + 1);
          keys := keys + [k];
          i := i + 1;
          if !Eligible(c, Value(), r, bp, k) {
            continue;
          }
          var wantsKick := WantsKick(Value(), r, k);
          var effective := Effective(c, Value(), r, bp, k);
          if best.None? || (wantsKick && !bestKick) || (wantsKick == bestKick && effective < bestDist) {
            best, bestKick, bestDist := Some(k), wantsKick, effective;
          }
        }
        team := team + 1;
      }
    }

    method ResolveBallContest(scene: Scene)
      requires holder.Some? ==> scene.Has(holder.value)
      modifies this
      ensures Value() == old(Resolve(c, scene, Value()))
    {
      hide Mouth, Contest;
      var bp := HeldBall(scene, Value());
      var best := FindWinner(scene, bp);
      contestWinner := best;
      if holder.Some? && best.Some? && best != holder {
        deployed := deployed - {holder.value};
        holds := holds - {holder.value};
        request := Some(Reset(bp, ORIGIN));
        ball := ball.(position := bp);
        holder := None;
      }
    }

    // --- the robots' turns --------------------------------------------------------------------------------

    /** One robot's part of botMovement. */
    method MoveRobot(r: Bot, k: Key)
      modifies this
      ensures Value() == old(Turn(c, Value(), r, k))
    {
      hide Window, Mouth, Parked, Launch, RelativeSpeed, NormalSpeed, BodyPoint, CanRecover, Release, AfterKick, Dribble, AsksKick, MaxDrop;
      LetGoAndUnlock(r, k);
      if !InMouth(c, Value(), r, k) {
        kickedBallInMouth := kickedBallInMouth - {k};
        bouncedBallInMouth := bouncedBallInMouth - {k};
        deployed := deployed - {k};
        holds := holds - {k};
        return;
      }
      if contestWinner.Some? && contestWinner != Some(k) {
        holds := holds - {k};
        return;
      }
      if holder.Some? && holder != Some(k) {
        holds := holds - {k};
        return;
      }
      UseMouth(r, k);
    }

    method LetGoAndUnlock(r: Bot, k: Key)
      modifies this
      ensures Value() == old(Settle(Value(), r, k))
    {
      hide Mouth, Parked, NormalSpeed, BodyPoint, Release, AsksKick;
      if LetsGo(r) {
        ReleaseBall(r, k);
      }
      if k in kickedBallInMouth {
        var point := BodyPoint(r, FloorOf(ball.position));
        var normalSpeed := NormalSpeed(Plate(point, Normal(r.heading)), ball.velocity);
        if CanRecover(ball.nowMs - kickedBallInMouth[k], normalSpeed, pendingKick.Some?) {
          kickedBallInMouth := kickedBallInMouth - {k};
        }
      }
    }

    /** The ball is in the mouth of a robot that may have it: kick it, catch it, or only sense it. */
    method UseMouth(r: Bot, k: Key)
      modifies this
      ensures var u := old(Sense(c, Value(), r, k));
              Value() == if Fires(u, r, k) then Fire(c, u, r, k) else if Catches(u, r, k) then Dribble(u, k) else u
    {
      hide Launch, RelativeSpeed, AsksKick, AfterKick, Dribble;
      var catchable := Catchable(c, Value(), r, k);
      holds := holds + {k};
      if !catchable {
        bouncedBallInMouth := bouncedBallInMouth + {k};
      }
      assert Value() == old(Sense(c, Value(), r, k));
      hide Sense;
      var leaving := k in kickedBallInMouth;
      var ready := KickerReady(Value(), k);
      if leaving {
        return;
      } else if ready && AsksKick(r) {
        var launch := Launch(c, Value(), r, k);
        kickReadyAtMs := kickReadyAtMs[k := ball.nowMs + c.rechargeSec * 1000.0];
        kickedBallInMouth := kickedBallInMouth[k := ball.nowMs];
        KickBall(r, k, launch);
      } else if r.spinner > 0.0 && k !in bouncedBallInMouth {
        DribbleBall(k);
      }
    }

    method BotMovement(scene: Scene, isYellow: bool)
      modifies this
      ensures AllIn(scene, TeamKeys(isYellow, |scene.Team(isYellow)|))
      ensures Value() == old(Turns(c, scene, Value(), TeamKeys(isYellow, |scene.Team(isYellow)|)))
    {
      hide Turn;
      ghost var s := Value();
      var i := 0;
      assert TeamKeys(isYellow, 0) == [];
      while i < |scene.Team(isYellow)|
        invariant 0 <= i <= |scene.Team(isYellow)|
        invariant AllIn(scene, TeamKeys(isYellow, i)) && Value() == Turns(c, scene, s, TeamKeys(isYellow, i))
      {
        var k := Key(isYellow, i);
        TurnsStep(c, scene, s, TeamKeys(isYellow, i), k);
        TeamKeysGrow(isYellow, i);
        MoveRobot(scene.At(k), k);
        i := i + 1;
      }
    }

    // --- the frame ----------------------------------------------------------------------------------------

    method RefreshBall(scene: Scene, timestep: real) returns (known: bool)
      requires holder.Some? ==> scene.Has(holder.value)
      modifies this`ball
      ensures (ball, known) == old(Refresh(c, ball, Current(scene, Value()), timestep))
    {
      hide Mouth, OnField, Landed, Difference, Newest, MetresPerSecond;
      ball := ball.(nowMs := ball.nowMs + timestep, timestepMs := timestep);
      var current: Option<V3> := None;
      if holder.Some? {
        current := Some(HeldBall(scene, Value()));
      } else if OnField(body) {
        current := Some(body);
      }
      if current.None? {
        return false;
      }
      var p := current.value;
      if ball.placement.Some? {
        if !Landed(c, ball.placement.value, p, ball.nowMs) {
          return false;
        }
        var v := MetresPerSecond(ball.placement.value.velocity);
        ball := ball.(velocity := v, before := v, placement := None, recent := [v]);
      } else if ball.prevSample.Some? && ball.nowMs > ball.prevSample.value.timeMs {
        ball := ball.(before := ball.velocity);
        var v := Difference(p, ball.prevSample.value.position, ball.nowMs - ball.prevSample.value.timeMs);
        ball := ball.(velocity := v, recent := Newest(v, ball.recent));
      }
      ball := ball.(position := p, prevSample := Some(Sample(p, ball.nowMs)));
      return true;
    }

    /** One frame; `launch` is the deferred kick given to the body, `known` whether friction may use
        the measured velocity. */
    method UpdateGameObjects(scene: Scene, timestep: real) returns (launch: Option<V3>, known: bool)
      requires holder.Some? ==> scene.Has(holder.value)
      modifies this
      ensures Value() == old(Update(c, scene, Value(), timestep))
      ensures launch == old(if Launches(Value()) then pendingKick else None)
      ensures known == old(Refresh(c, ball, Current(scene, Value()), timestep).1 && !Launches(Value()))
    {
      hide Refresh, Current, Turns, Resolve, OnField, Scene.Keys;
      known := RefreshBall(scene, timestep);
      launch := None;
      if pendingKick.Some? && OnField(body) {
        launch := pendingKick;
        pendingKick := None;
        known := false;
      }
      assert Value() == old(Prepared(c, scene, Value(), timestep));
      hide Prepared;
      ResolveBallContest(scene);
      ghost var q := Value();
      BotMovement(scene, false);
      BotMovement(scene, true);
      TurnsAppend(c, scene, q, TeamKeys(false, |scene.blue|), TeamKeys(true, |scene.yellow|));
      BothTeams(scene);
    }

    /** What is published after the frame (Sync.updateBall). */
    method PublishBall(scene: Scene)
      requires holder.Some? ==> scene.Has(holder.value)
      modifies this`ball
      ensures Value() == old(Publish(scene, Value()))
    {
      hide Mouth, OnField;
      if holder.None? {
        if OnField(body) {
          ball := ball.(position := body);
        }
      } else {
        ball := ball.(position := Mouth(scene.At(holder.value)));
      }
    }

    /** Physics has served the last request and left the ball at `newBody`. */
    method FrameDone(scene: Scene, newBody: V3, timestep: real) returns (launch: Option<V3>, known: bool)
      requires holder.Some? ==> scene.Has(holder.value)
      modifies this
      ensures Value() == old(FrameStep(c, scene, Value(), newBody, timestep))
      ensures launch == old(if Launches(Stepped(Value(), newBody)) then pendingKick else None)
    {
      hide Update, Publish, OnField;
      body := newBody;
      request := None;
      assert Value() == old(Stepped(Value(), newBody));
      hide Stepped;
      launch, known := UpdateGameObjects(scene, timestep);
      PublishBall(scene);
    }

    method PlaceBall(position: V3, velocity: Option<V3>, nb: nat, ny: nat)
      modifies this
      ensures Value() == old(Place(Value(), position, velocity, nb, ny))
    {
      pendingKick := None;
      request := Some(Reset(position, ORIGIN));
      ball := Awaiting(ball, body, position, if velocity.Some? then velocity.value else ORIGIN);
      kickedBallInMouth := map[];
      bouncedBallInMouth := {};
      holder := None;
      RetractTeam(false, nb);
      RetractTeam(true, ny);
      hide TeamSet, Awaiting;
    }

    method RetractTeam(isYellow: bool, n: nat)
      modifies this`deployed, this`holds
      ensures deployed == old(deployed) - TeamSet(isYellow, n) && holds == old(holds) - TeamSet(isYellow, n)
    {
      var i := 0;
      while i < n
        invariant 0 <= i <= n
        invariant deployed == old(deployed) - TeamSet(isYellow, i) && holds == old(holds) - TeamSet(isYellow, i)
      {
        deployed := deployed - {Key(isYellow, i)};
        holds := holds - {Key(isYellow, i)};
        i := i + 1;
      }
    }
  }

  lemma BothTeams(scene: Scene)
    ensures scene.Keys() == TeamKeys(false, |scene.Team(false)|) + TeamKeys(true, |scene.Team(true)|)
  {
  }
}
