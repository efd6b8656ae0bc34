/** What a kick does to the ball: which velocity it is given in the next frame, and that the winner of the
    contest gets to play it. */
module PossessionLaunch {
  import opened Options
  import opened RealMath
  import opened BallContact
  import opened KickLimits
  import opened Rebound
  import opened ReboundPlate
  import opened Possession
  import opened PossessionInvariant
  import opened PossessionContest
  import opened PossessionExclusion
  import opened PossessionRuns
  import opened PossessionKicks
  import opened PossessionHistory
  import opened PossessionTurns

  // --- one turn -------------------------------------------------------------------------------------------------

  /** Approach speed that friction can take off the ball between two frames, with a margin. */
  function AllowedDrop(c: Config, b: Tracked): real {
    20.0 + 1.5 * (0.001 * b.timestepMs * Max(c.slideDecel, c.rollDecel))
  }

  /** The commanded kick as strong as the kicker is. */
  function Delivered(c: Config, r: Bot): Kick {
    Kick(c.kickerFriction * r.kick.forward, c.kickerFriction * r.kick.up)
  }

  /** `launch` is the velocity with which the measured ball b leaves the plate of robot r. */
  ghost predicate KickedOff(c: Config, r: Bot, holder: bool, b: Tracked, launch: V3) {
    exists v: V3 ::
      && Came(r, FloorOf(b.position), holder, b.velocity, b.recent, AllowedDrop(c, b), v)
      && LeavesPlate(c.plate, r, FloorOf(b.position), v, Delivered(c, r), launch)
  }

  lemma DropIs(c: Config, s: State)
    ensures MaxDrop(c, s) == AllowedDrop(c, s.ball)
  {
    var m := Max(c.slideDecel, c.rollDecel);
    assert m * s.ball.timestepMs * 0.001 * 1.5 == 1.5 * (0.001 * s.ball.timestepMs * m);
  }

  lemma DeliveredIs(c: Config, r: Bot)
    ensures ScaleKick(c.kickerFriction, r.kick) == Delivered(c, r)
  {
  }

  lemma LaunchKicksOff(c: Config, s: State, r: Bot, k: Key)
    requires Dot(r.heading, r.heading) == 1.0
    ensures KickedOff(c, r, s.holder == Some(k), s.ball, Launch(c, s, r, k))
    ensures Launch(c, s, r, k).y == c.kickerFriction * r.kick.up
  {
    DropIs(c, s);
    DeliveredIs(c, r);
    hide Dot, Came, LeavesPlate, DirectKick, MaxDrop, AllowedDrop, ScaleKick;
    DirectKickExactly(c.plate, r, FloorOf(s.ball.position), s.holder == Some(k), s.ball.velocity, s.ball.recent,
                      AllowedDrop(c, s.ball), Delivered(c, r), Launch(c, s, r, k));
    var v :| Came(r, FloorOf(s.ball.position), s.holder == Some(k), s.ball.velocity, s.ball.recent, AllowedDrop(c, s.ball), v)
             && LeavesPlate(c.plate, r, FloorOf(s.ball.position), v, Delivered(c, r), Launch(c, s, r, k));
    LeavesUpwards(c.plate, r, FloorOf(s.ball.position), v, Delivered(c, r), Launch(c, s, r, k));
  }

  lemma LeavesUpwards(m: PlateModel, r: Bot, ball: V2, v: V3, kick: Kick, out: V3)
    requires LeavesPlate(m, r, ball, v, kick, out)
    ensures out.y == kick.up
  {
    hide Dot, BodyPoint;
  }

  /** A turn that kicks leaves the velocity that comes off the plate waiting for the body. */
  lemma TurnLaunches(c: Config, s: State, r: Bot, k: Key)
    requires Kicks(c, s, r, k) && Dot(r.heading, r.heading) == 1.0
    ensures var v := Turn(c, s, r, k);
            && v.pendingKick.Some? && KickedOff(c, r, s.holder == Some(k), s.ball, v.pendingKick.value)
            && v.pendingKick.value.y == c.kickerFriction * r.kick.up
  {
    TurnIs(c, s, r, k);
    SettledIs(s, r, k);
    TakesIs(c, s, r, k);
    SensedIs(c, s, r, k);
    var u := Sense(c, Settle(s, r, k), r, k);
    hide Turn, Settle, Sense, MouthFull, KeptOut, Locked, Kicks, Takes, Bounces, Idle, Mouth, Parked, Dot, Launch, KickedOff;
    var fired := u.(readyAt := u.readyAt[k := u.ball.nowMs + c.rechargeSec * 1000.0], kicked := u.kicked[k := u.ball.nowMs]);
    LaunchKicksOff(c, u, r, k);
  }

  // --- the holder at its turn -----------------------------------------------------------------------------------

  lemma OtherTurnHolder(c: Config, s: State, r: Bot, k: Key, h: Key)
    requires k != h
    ensures var v := Turn(c, s, r, k);
            && (v.holder == Some(h) <==> s.holder == Some(h))
            && (s.winner == Some(h) && s.holder.None? ==> v.holder.None?)
            && v.winner == s.winner
  {
    BallExactly(c, s, r, k);
    TakesIs(c, s, r, k);
    TurnOwn(c, s, r, k);
    hide Turn, MouthFull, Locked, Kicks, Takes, Bounces, Idle, InFront, SameEntries;
  }

  lemma {:induction false} TurnsBefore(c: Config, scene: Scene, s: State, keys: seq<Key>, h: Key)
    requires AllIn(scene, keys) && !Mentions(keys, h)
    ensures var v := Turns(c, scene, s, keys);
            && (v.holder == Some(h) <==> s.holder == Some(h))
            && (s.winner == Some(h) && s.holder.None? ==> v.holder.None?)
            && v.winner == s.winner
  {
    hide Turn;
    if keys != [] {
      var n := |keys| - 1;
      assert forall i :: 0 <= i < n ==> keys[..n][i] == keys[i];
      TurnsBefore(c, scene, s, keys[..n], h);
      assert keys[n] != h;
      OtherTurnHolder(c, Turns(c, scene, s, keys[..n]), scene.At(keys[n]), keys[n], h);
    }
  }

  /** The state in which robot k gets its turn, against the one in which the turns start. */
  lemma UntilItsTurn(c: Config, scene: Scene, s: State, timestep: real, k: Key)
    requires HolderPresent(scene, s) && scene.Has(k)
    ensures var q := Resolve(c, scene, Prepared(c, scene, s, timestep));
            var t := AtTurn(c, scene, s, timestep, k);
            && (t.holder == Some(k) <==> q.holder == Some(k)) && t.winner == q.winner && t.ball == q.ball
            && (q.winner == Some(k) && q.holder.None? ==> t.holder.None?) && SameEntries(q, t, k)
  {
    var q := Resolve(c, scene, Prepared(c, scene, s, timestep));
    FrameEntries(c, scene, s, timestep, k);
    KeysDistinct(scene);
    OrderIs(scene, k);
    var i := Order(scene, k);
    NotBefore(scene.Keys(), i);
    hide Prepared, Resolve, Turn, Turns, Scene.Keys, Order, SameEntries;
    TurnsBefore(c, scene, q, scene.Keys()[..i], k);
    TurnsOwn(c, scene, q, scene.Keys()[..i]);
  }

  /** Losing the contest takes the ball from its holder; winning it, or a contest without a winner, does not. */
  lemma HolderLosesExactly(c: Config, scene: Scene, s: State)
    requires HolderPresent(scene, s) && s.holder.Some?
    ensures var v := Resolve(c, scene, s);
            var h := s.holder.value;
            && (v.holder.None? <==> v.winner.Some? && v.winner.value != h)
            && (v.holder.Some? ==> v == s.(winner := v.winner))
            && (v.holder.None? ==>
                  && v.request == Some(Reset(InFront(scene.At(h)), V3(0.0, 0.0, 0.0)))
                  && v.ball == s.ball.(position := InFront(scene.At(h)))
                  && h !in v.holds && h !in v.deployed && v.pendingKick == s.pendingKick && v.body == s.body
                  && v.kicked == s.kicked && v.readyAt == s.readyAt && v.bounced == s.bounced)
  {
    assert Mouth(scene.At(s.holder.value)) == InFront(scene.At(s.holder.value));
    hide Contest, Mouth, InFront;
  }

  lemma KickerHeld(c: Config, scene: Scene, s: State, timestep: real, k: Key)
    requires HolderPresent(scene, s) && scene.Has(k) && Kicks(c, AtTurn(c, scene, s, timestep, k), scene.At(k), k)
    ensures AtTurn(c, scene, s, timestep, k).holder == Some(k) <==> s.holder == Some(k)
  {
    var p := Prepared(c, scene, s, timestep);
    PreparedKeeps(c, scene, s, timestep);
    UntilItsTurn(c, scene, s, timestep, k);
    TakesIs(c, AtTurn(c, scene, s, timestep, k), scene.At(k), k);
    if p.holder.Some? {
      HolderLosesExactly(c, scene, p);
    } else {
      NobodyLoses(c, scene, p);
    }
    hide Prepared, Resolve, Turns, AtTurn, Kicks, Takes, MouthFull, Locked, Bounces, Idle, InFront, SameEntries;
  }

  lemma NobodyLoses(c: Config, scene: Scene, s: State)
    requires s.holder.None?
    ensures var v := Resolve(c, scene, s);
            v == s.(winner := v.winner)
  {
    hide Contest;
  }

  // --- a frame ----------------------------------------------------------------------------------------------------

  lemma QuietTurn(c: Config, s: State, r: Bot, k: Key)
    requires !FiresNow(c, s, r, k)
    ensures Turn(c, s, r, k).pendingKick == s.pendingKick
  {
    KickExactly(c, s, r, k);
    BallExactly(c, s, r, k);
    hide Turn, FiresNow, Kicks, Takes, Idle, InFront;
  }

  /** No robot after the i-th one fires. */
  ghost predicate QuietAfter(c: Config, scene: Scene, q: State, keys: seq<Key>, i: nat)
    requires AllIn(scene, keys)
  {
    forall j :: i < j < |keys| ==> !FiresNow(c, Turns(c, scene, q, keys[..j]), scene.At(keys[j]), keys[j])
  }

  lemma QuietAt(c: Config, scene: Scene, q: State, keys: seq<Key>, i: nat, j: nat)
    requires AllIn(scene, keys) && i < j < |keys| && QuietAfter(c, scene, q, keys, i)
    ensures !FiresNow(c, Turns(c, scene, q, keys[..j]), scene.At(keys[j]), keys[j])
  {
    hide FiresNow, Turns;
  }

  /** One more turn, and one more robot that acts or not. */
  lemma NextTurn(c: Config, scene: Scene, q: State, keys: seq<Key>, n: nat)
    requires AllIn(scene, keys) && n < |keys|
    ensures AllIn(scene, keys[..n]) && AllIn(scene, keys[..n + 1])
    ensures var t := Turns(c, scene, q, keys[..n]);
            && Turns(c, scene, q, keys[..n + 1]) == Turn(c, t, scene.At(keys[n]), keys[n])
            && |Actors(c, scene, q, keys[..n + 1])|
               == |Actors(c, scene, q, keys[..n])| + if Acts(c, t, scene.At(keys[n]), keys[n]) then 1 else 0
  {
    hide Turn, Acts;
    assert keys[..n + 1][..n] == keys[..n] && keys[..n + 1][n] == keys[n];
  }

  lemma {:induction false} LastKickStays(c: Config, scene: Scene, q: State, keys: seq<Key>, i: nat, n: nat)
    requires AllIn(scene, keys) && i < n <= |keys| && QuietAfter(c, scene, q, keys, i)
    ensures Turns(c, scene, q, keys[..n]).pendingKick == Turn(c, Turns(c, scene, q, keys[..i]), scene.At(keys[i]), keys[i]).pendingKick
    decreases n
  {
    hide Turn, Turns, Actors, Acts, FiresNow, QuietAfter;
    NextTurn(c, scene, q, keys, n - 1);
    if i + 1 < n {
      LastKickStays(c, scene, q, keys, i, n - 1);
      QuietAt(c, scene, q, keys, i, n - 1);
      QuietTurn(c, Turns(c, scene, q, keys[..n - 1]), scene.At(keys[n - 1]), keys[n - 1]);
    }
  }

  lemma FiringActs(c: Config, s: State, r: Bot, k: Key)
    requires FiresNow(c, s, r, k)
    ensures Acts(c, s, r, k)
  {
    hide Settle, InMouth, Blocked, Fires, Catches, Sense;
  }

  lemma {:induction false} SomebodyActs(c: Config, scene: Scene, q: State, keys: seq<Key>, i: nat, n: nat)
    requires AllIn(scene, keys) && i < n <= |keys| && Acts(c, Turns(c, scene, q, keys[..i]), scene.At(keys[i]), keys[i])
    ensures 1 <= |Actors(c, scene, q, keys[..n])|
    decreases n
  {
    hide Acts, Turn, Turns, Actors;
    NextTurn(c, scene, q, keys, n - 1);
    if i + 1 < n {
      SomebodyActs(c, scene, q, keys, i, n - 1);
    }
  }

  lemma {:induction false} TwoActors(c: Config, scene: Scene, q: State, keys: seq<Key>, i: nat, j: nat, n: nat)
    requires AllIn(scene, keys) && i < j < n <= |keys|
    requires Acts(c, Turns(c, scene, q, keys[..i]), scene.At(keys[i]), keys[i])
    requires Acts(c, Turns(c, scene, q, keys[..j]), scene.At(keys[j]), keys[j])
    ensures 2 <= |Actors(c, scene, q, keys[..n])|
    decreases n
  {
    hide Acts, Turn, Turns, Actors;
    NextTurn(c, scene, q, keys, n - 1);
    if j + 1 < n {
      TwoActors(c, scene, q, keys, i, j, n - 1);
    } else {
      SomebodyActs(c, scene, q, keys, i, n - 1);
    }
  }

  lemma OnlyActorQuiet(c: Config, scene: Scene, q: State, keys: seq<Key>, i: nat)
    requires AllIn(scene, keys) && i < |keys| && |Actors(c, scene, q, keys)| <= 1
    requires FiresNow(c, Turns(c, scene, q, keys[..i]), scene.At(keys[i]), keys[i])
    ensures QuietAfter(c, scene, q, keys, i)
  {
    hide FiresNow, Acts, Turns, Actors;
    assert keys[..|keys|] == keys;
    FiringActs(c, Turns(c, scene, q, keys[..i]), scene.At(keys[i]), keys[i]);
    forall j | i < j < |keys| ensures !FiresNow(c, Turns(c, scene, q, keys[..j]), scene.At(keys[j]), keys[j]) {
      if FiresNow(c, Turns(c, scene, q, keys[..j]), scene.At(keys[j]), keys[j]) {
        FiringActs(c, Turns(c, scene, q, keys[..j]), scene.At(keys[j]), keys[j]);
        TwoActors(c, scene, q, keys, i, j, |keys|);
      }
    }
  }

  /** In a frame in which one robot acts, its kick is what waits for the body afterwards. */
  lemma FrameLaunches(c: Config, scene: Scene, s: State, timestep: real, k: Key)
    requires HolderPresent(scene, s) && FiresIn(c, scene, s, timestep, k) && AllIn(scene, scene.Keys())
    requires Dot(scene.At(k).heading, scene.At(k).heading) == 1.0
    requires |Actors(c, scene, Resolve(c, scene, Prepared(c, scene, s, timestep)), scene.Keys())| <= 1
    ensures var v := Update(c, scene, s, timestep);
            && v.pendingKick.Some?
            && KickedOff(c, scene.At(k), s.holder == Some(k), AtTurn(c, scene, s, timestep, k).ball, v.pendingKick.value)
            && v.pendingKick.value.y == c.kickerFriction * scene.At(k).kick.up
  {
    hide *;
    LastKickOfFrame(c, scene, s, timestep, k);
    FiresInIs(c, scene, s, timestep, k);
    var t := AtTurn(c, scene, s, timestep, k);
    KickExactly(c, t, scene.At(k), k);
    KickerHeld(c, scene, s, timestep, k);
    TurnLaunches(c, t, scene.At(k), k);
  }

  lemma FiresInIs(c: Config, scene: Scene, s: State, timestep: real, k: Key)
    requires HolderPresent(scene, s) && FiresIn(c, scene, s, timestep, k)
    ensures scene.Has(k) && FiresNow(c, AtTurn(c, scene, s, timestep, k), scene.At(k), k)
  {
    hide AtTurn, FiresNow;
  }

  lemma KeysLaunch(c: Config, scene: Scene, q: State, keys: seq<Key>, i: nat)
    requires AllIn(scene, keys) && i < |keys| && |Actors(c, scene, q, keys)| <= 1
    requires FiresNow(c, Turns(c, scene, q, keys[..i]), scene.At(keys[i]), keys[i])
    ensures Turns(c, scene, q, keys).pendingKick == Turn(c, Turns(c, scene, q, keys[..i]), scene.At(keys[i]), keys[i]).pendingKick
  {
    hide Turn, Turns, FiresNow, Actors;
    assert keys[..|keys|] == keys;
    OnlyActorQuiet(c, scene, q, keys, i);
    LastKickStays(c, scene, q, keys, i, |keys|);
  }

  lemma LastKickOfFrame(c: Config, scene: Scene, s: State, timestep: real, k: Key)
    requires HolderPresent(scene, s) && FiresIn(c, scene, s, timestep, k) && AllIn(scene, scene.Keys())
    requires |Actors(c, scene, Resolve(c, scene, Prepared(c, scene, s, timestep)), scene.Keys())| <= 1
    ensures scene.Has(k)
    ensures Update(c, scene, s, timestep).pendingKick == Turn(c, AtTurn(c, scene, s, timestep, k), scene.At(k), k).pendingKick
  {
    OrderIs(scene, k);
    hide Prepared, Resolve, Turn, Turns, Scene.Keys, Order, FiresNow, Actors;
    KeysLaunch(c, scene, Resolve(c, scene, Prepared(c, scene, s, timestep)), scene.Keys(), Order(scene, k));
  }

  // --- the winner plays the ball -------------------------------------------------------------------------------------

  /** The winner of the contest gets to play the ball at its turn, whatever the others do before: it kicks if it
      asks to and is recharged, and otherwise takes the ball unless that bounces off its mouth. The ball must be
      seen where the contest sees it. */
  lemma WinnerPlays(c: Config, scene: Scene, s: State, timestep: real, k: Key)
    requires HolderPresent(scene, s)
    requires var p := Prepared(c, scene, s, timestep); p.ball.placement.None? || p.holder.None?
    requires Resolve(c, scene, Prepared(c, scene, s, timestep)).winner == Some(k)
    ensures scene.Has(k)
    ensures var t := AtTurn(c, scene, s, timestep, k);
            var r := scene.At(k);
            && (Kicks(c, t, r, k) <==> Asks(r) && Recharged(t, k))
            && (Kicks(c, t, r, k) || Takes(c, t, r, k) || Bounces(c, t, r, k))
  {
    var p := Prepared(c, scene, s, timestep);
    PreparedKeeps(c, scene, s, timestep);
    WinnerMay(c, scene, p, k);
    hide Prepared, Resolve, Turns, AtTurn, Kicks, Takes, Bounces, Recharged, Asks, Mouth, OnField, SameEntries, Eligible;
    UntilItsTurn(c, scene, s, timestep, k);
    MayPlay(c, p, Resolve(c, scene, p), AtTurn(c, scene, s, timestep, k), HeldBall(scene, p), scene.At(k), k);
  }

  lemma WinnerMay(c: Config, scene: Scene, p: State, k: Key)
    requires HolderPresent(scene, p) && Resolve(c, scene, p).winner == Some(k)
    requires p.ball.position == HeldBall(scene, p)
    ensures scene.Has(k) && Eligible(c, p, scene.At(k), HeldBall(scene, p), k)
    ensures var q := Resolve(c, scene, p);
            && q.ball == p.ball && (q.holder.None? || q.holder == Some(k))
            && q.readyAt == p.readyAt && q.kicked == p.kicked && q.bounced == p.bounced
  {
    var keys := scene.Keys();
    KeysDistinct(scene);
    ContestOptimal(c, scene, p, HeldBall(scene, p), keys);
    hide Contest, Mouth, Eligible, Scene.Keys, Bid;
    var best := Contest(c, scene, p, HeldBall(scene, p), keys);
    var i :| Best(c, scene, p, HeldBall(scene, p), keys, i, best.value);
    BidKey(c, scene, p, HeldBall(scene, p), keys[i]);
  }

  lemma MayPlay(c: Config, p: State, q: State, t: State, ball: V3, r: Bot, k: Key)
    requires Eligible(c, p, r, ball, k) && p.ball.position == ball
    requires q.ball == p.ball && (q.holder.None? || q.holder == Some(k)) && q.winner == Some(k)
    requires q.readyAt == p.readyAt && q.kicked == p.kicked && q.bounced == p.bounced
    requires t.ball == q.ball && t.winner == q.winner && SameEntries(q, t, k)
    requires (t.holder == Some(k) <==> q.holder == Some(k)) && (q.holder.None? ==> t.holder.None?)
    ensures Kicks(c, t, r, k) <==> Asks(r) && Recharged(t, k)
    ensures Kicks(c, t, r, k) || Takes(c, t, r, k) || Bounces(c, t, r, k)
  {
    AsksIs(r);
    WindowLow(c, r, ball);
    hide Window, Against, Closing;
  }

  lemma WindowLow(c: Config, r: Bot, ball: V3)
    requires Window(c, r, ball)
    ensures ball.y < 40.0
  {
    hide Dot, Distance;
  }

  // --- runs -------------------------------------------------------------------------------------------------------------

  /** Where the n-th frame of a run sees the ball: where it measures it, or where it last was if it has not
      seen a placement land yet. */
  ghost function SightedAt(c: Config, teams: Teams, s: State, events: seq<Event>, n: nat): V3
    requires HolderFits(teams, s) && AllFit(teams, events) && n < |events| && events[n].Frame?
  {
    if Run(c, teams, s, events, n + 1).ball.placement.None? then SeenIn(c, teams, s, events, n).position
    else Run(c, teams, s, events, n).ball.position
  }

  lemma BallAtTurn(c: Config, scene: Scene, s: State, timestep: real, k: Key)
    requires HolderPresent(scene, s) && scene.Has(k) && Current(scene, s).Some?
    requires var p := Prepared(c, scene, s, timestep); p.ball.placement.None? || p.holder.None?
    ensures var p := Prepared(c, scene, s, timestep);
            var b := Update(c, scene, s, timestep).ball;
            && b.placement == p.ball.placement && AtTurn(c, scene, s, timestep, k).ball == b
            && b.position == if b.placement.None? then Current(scene, s).value else s.ball.position
  {
    var p := Prepared(c, scene, s, timestep);
    PreparedKeeps(c, scene, s, timestep);
    UnlandedPosition(c, scene, s, timestep);
    if p.holder.Some? {
      HolderLosesExactly(c, scene, p);
      assert Mouth(scene.At(p.holder.value)) == InFront(scene.At(p.holder.value));
    } else {
      NobodyLoses(c, scene, p);
    }
    KeysDistinct(scene);
    hide Prepared, Resolve, Turns, AtTurn, Scene.Keys, Mouth, OnField, InFront;
    UntilItsTurn(c, scene, s, timestep, k);
    TurnsOwn(c, scene, Resolve(c, scene, p), scene.Keys());
  }

  lemma UnlandedPosition(c: Config, scene: Scene, s: State, timestep: real)
    requires HolderPresent(scene, s)
    ensures var p := Prepared(c, scene, s, timestep);
            p.ball.placement.Some? ==> p.ball.position == s.ball.position
  {
    hide Landed, Difference, Newest, MetresPerSecond, Current, OnField;
  }

  /** The kick of a run. When a robot kicks in one frame and no placement comes before the next, the free body
      is on the field in the next frame and is given the velocity that comes off the robot's plate after the
      ball measured in the first: upwards the commanded speed times the kicker's efficiency. The run has no
      placement outstanding while a robot holds the ball. */
  lemma KickIsDelivered(c: Config, teams: Teams, s: State, events: seq<Event>, n: nat, k: Key)
    requires Fresh(s) && AllFit(teams, events) && LawfulRun(c, teams, s, events)
    requires UndisturbedRun(c, teams, s, events)
    requires n + 1 < |events| && events[n].Frame? && events[n + 1].Frame?
    requires FiresAt(c, teams, Run(c, teams, s, events, n), events[n], k)
    ensures Launches(Stepped(Run(c, teams, s, events, n + 1), events[n + 1].body))
    ensures var after := Run(c, teams, s, events, n + 1);
            var r := events[n].scene.At(k);
            && after.pendingKick.Some? && after.pendingKick.value.y == c.kickerFriction * r.kick.up
            && KickedOff(c, r, Run(c, teams, s, events, n).holder == Some(k),
                         after.ball.(position := SightedAt(c, teams, s, events, n)), after.pendingKick.value)
  {
    hide *;
    FreshFits(teams, s);
    LawfulAt(c, teams, s, events, n);
    LawfulAt(c, teams, s, events, n + 1);
    FrameIsDetermined(c, teams, s, events, n);
    OneActorPerFrame(c, teams, s, events, n + 1);
    RunStep(c, teams, s, events, n);
    StepKicks(c, teams, Run(c, teams, s, events, n), events[n], k);
    SightedIs(c, teams, s, events, n);
    LeftWaitingIs(c, events[n].scene.At(k), Run(c, teams, s, events, n).holder == Some(k), Run(c, teams, s, events, n + 1),
            SightedAt(c, teams, s, events, n));
  }

  lemma LeftWaitingIs(c: Config, r: Bot, holder: bool, v: State, q: V3)
    requires LeftWaiting(c, r, holder, v, q)
    ensures v.pendingKick.Some? && v.pendingKick.value.y == c.kickerFriction * r.kick.up
    ensures KickedOff(c, r, holder, v.ball.(position := q), v.pendingKick.value)
  {
    hide KickedOff;
  }

  lemma FreshFits(teams: Teams, s: State)
    requires Fresh(s)
    ensures HolderFits(teams, s)
  {
  }

  lemma LawfulAt(c: Config, teams: Teams, s: State, events: seq<Event>, n: nat)
    requires HolderFits(teams, s) && AllFit(teams, events) && LawfulRun(c, teams, s, events) && UndisturbedRun(c, teams, s, events)
    requires n < |events| && events[n].Frame?
    ensures EventFits(teams, events[n]) && HolderFits(teams, Run(c, teams, s, events, n))
    ensures RealRobots(c, events[n].scene) && Undisturbed(c, teams, Run(c, teams, s, events, n), events[n])
  {
    hide Run, RealRobots, MouthsOnField, OnField, Parked, Undisturbed;
    assert Lawful(c, Run(c, teams, s, events, n), events[n]);
  }

  lemma RunStep(c: Config, teams: Teams, s: State, events: seq<Event>, n: nat)
    requires HolderFits(teams, s) && AllFit(teams, events) && n < |events|
    ensures Run(c, teams, s, events, n + 1) == Step(c, teams, Run(c, teams, s, events, n), events[n])
  {
    hide Step;
  }

  lemma SightedIs(c: Config, teams: Teams, s: State, events: seq<Event>, n: nat)
    requires HolderFits(teams, s) && AllFit(teams, events) && n < |events| && events[n].Frame?
    ensures SightedAt(c, teams, s, events, n)
         == if Run(c, teams, s, events, n + 1).ball.placement.None? then SeenIn(c, teams, s, events, n).position
            else Run(c, teams, s, events, n).ball.position
  {
    hide Run, SeenIn;
  }

  lemma StepKicks(c: Config, teams: Teams, t: State, e: Event, k: Key)
    requires HolderFits(teams, t) && EventFits(teams, e) && e.Frame? && RealRobots(c, e.scene) && Undisturbed(c, teams, t, e)
    requires FiresAt(c, teams, t, e, k) && Current(e.scene, Stepped(t, e.body)).Some?
    ensures e.scene.Has(k)
    ensures var v := Step(c, teams, t, e);
            LeftWaiting(c, e.scene.At(k), t.holder == Some(k), v,
                      if v.ball.placement.None? then Current(e.scene, Stepped(t, e.body)).value else t.ball.position)
  {
    var b := Stepped(t, e.body);
    SteppedIs(c, teams, t, e);
    hide *;
    FiresInIs(c, e.scene, b, e.timestep, k);
    FrameKicks(c, e.scene, b, e.timestep, k);
    PublishedKick(c, e.scene, Update(c, e.scene, b, e.timestep), e.scene.At(k), t.holder == Some(k));
  }

  /** Afterwards the velocity that comes off the plate of robot r after the ball seen at q waits for the body. */
  ghost predicate LeftWaiting(c: Config, r: Bot, holder: bool, v: State, q: V3) {
    && v.pendingKick.Some? && v.pendingKick.value.y == c.kickerFriction * r.kick.up
    && KickedOff(c, r, holder, v.ball.(position := q), v.pendingKick.value)
  }

  lemma SteppedIs(c: Config, teams: Teams, t: State, e: Event)
    requires HolderFits(teams, t) && EventFits(teams, e) && e.Frame? && Undisturbed(c, teams, t, e)
    ensures var b := Stepped(t, e.body);
            && HolderPresent(e.scene, b) && b.holder == t.holder && b.ball == t.ball
            && (forall k: Key :: FiresAt(c, teams, t, e, k) ==> FiresIn(c, e.scene, b, e.timestep, k))
            && (var p := Prepared(c, e.scene, b, e.timestep); p.ball.placement.None? || p.holder.None?)
            && Step(c, teams, t, e) == Publish(e.scene, Update(c, e.scene, b, e.timestep))
  {
    PreparedKeeps(c, e.scene, Stepped(t, e.body), e.timestep);
    hide Update, Publish, Prepared, FiresIn, OnField;
  }

  lemma PublishedKick(c: Config, scene: Scene, u: State, r: Bot, holder: bool)
    requires HolderPresent(scene, u) && LeftWaiting(c, r, holder, u, u.ball.position)
    ensures Publish(scene, u).ball.placement == u.ball.placement
    ensures LeftWaiting(c, r, holder, Publish(scene, u), u.ball.position)
  {
    hide Mouth, OnField, KickedOff;
    assert Publish(scene, u).ball.(position := u.ball.position) == u.ball.(position := u.ball.position);
  }

  lemma FrameKicks(c: Config, scene: Scene, b: State, timestep: real, k: Key)
    requires RealRobots(c, scene) && HolderPresent(scene, b) && FiresIn(c, scene, b, timestep, k) && Current(scene, b).Some?
    requires var p := Prepared(c, scene, b, timestep); p.ball.placement.None? || p.holder.None?
    ensures var v := Update(c, scene, b, timestep);
            && v.ball.position == (if v.ball.placement.None? then Current(scene, b).value else b.ball.position)
            && LeftWaiting(c, scene.At(k), b.holder == Some(k), v, v.ball.position)
  {
    hide Update, Prepared, Resolve, Actors, Current, AtTurn, FiresNow, Scene.Keys, KickedOff, Dot, IsHypot, OnField;
    AtMostOneActs(c, scene, b, timestep);
    FrameLaunches(c, scene, b, timestep, k);
    BallAtTurn(c, scene, b, timestep, k);
  }
}
