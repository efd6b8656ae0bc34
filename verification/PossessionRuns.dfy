/** Whole runs of the possession protocol: any sequence of physics frames and placements. */
module PossessionRuns {
  import opened Options
  import opened RealMath
  import opened BallContact
  import opened KickLimits
  import opened Rebound
  import opened Possession
  import opened PossessionInvariant
  import opened PossessionContest
  import opened PossessionExclusion

  /** A physics frame leaves the ball at `body`; a placement comes between two frames. */
  datatype Event =
    | Frame(scene: Scene, body: V3, timestep: real)
    | Placing(position: V3, velocity: Option<V3>)

  /** Numbers of blue and of yellow robots. */
  datatype Teams = Teams(nb: nat, ny: nat)

  predicate Fits(teams: Teams, k: Key) {
    k.id < if k.isYellow then teams.ny else teams.nb
  }

  predicate HolderFits(teams: Teams, s: State) {
    s.holder.Some? ==> Fits(teams, s.holder.value)
  }

  predicate EventFits(teams: Teams, e: Event) {
    e.Frame? ==> |e.scene.blue| == teams.nb && |e.scene.yellow| == teams.ny
  }

  /** One physics frame: the request is served, the protocol runs, the ball is published. */
  function FrameStep(c: Config, scene: Scene, s: State, body: V3, timestep: real): State
    requires s.holder.Some? ==> scene.Has(s.holder.value)
  {
    Publish(scene, Update(c, scene, Stepped(s, body), timestep))
  }

  function Step(c: Config, teams: Teams, s: State, e: Event): (v: State)
    requires HolderFits(teams, s) && EventFits(teams, e)
    ensures HolderFits(teams, v)
  {
    hide Update;
    match e
    case Frame(scene, body, timestep) => FrameStep(c, scene, s, body, timestep)
    case Placing(position, velocity) => Place(s, position, velocity, teams.nb, teams.ny)
  }

  ghost predicate AllFit(teams: Teams, events: seq<Event>) {
    forall i :: 0 <= i < |events| ==> EventFits(teams, events[i])
  }

  /** The state after the first n events. */
  ghost function Run(c: Config, teams: Teams, s: State, events: seq<Event>, n: nat): (v: State)
    requires HolderFits(teams, s) && AllFit(teams, events) && n <= |events|
    ensures HolderFits(teams, v)
  {
    if n == 0 then s else Step(c, teams, Run(c, teams, s, events, n - 1), events[n - 1])
  }

  // --- what the world outside the protocol does ---------------------------------------------------------

  /** Physics serves the last request and then keeps the ball on its side of the field limit; robots
      keep their mouths on the field; time passes. */
  ghost predicate Lawful(c: Config, s: State, e: Event) {
    match e
    case Frame(scene, body, timestep) =>
      && RealRobots(c, scene) && MouthsOnField(scene) && 0.0 < timestep
      && (OnField(Target(s)) ==> OnField(body)) && (Parked(Target(s)) ==> Parked(body))
    case Placing(position, velocity) => OnField(position)
  }

  ghost predicate LawfulRun(c: Config, teams: Teams, s: State, events: seq<Event>)
    requires HolderFits(teams, s) && AllFit(teams, events)
  {
    forall i :: 0 <= i < |events| ==> Lawful(c, Run(c, teams, s, events, i), events[i])
  }

  // --- the parked/held invariant ------------------------------------------------------------------------

  /** Between events. */
  ghost predicate Rest(c: Config, s: State) {
    && ParkedWhileHeld(s) && HolderAgrees(s) && LocksDated(c, s)
    && (Parked(s.body) || OnField(s.body)) && (s.holder.Some? ==> OnField(s.ball.position))
  }

  /** A scene that has just been set up: the ball lies free on the field, nobody has kicked yet. */
  ghost predicate Fresh(s: State) {
    && s.holder.None? && s.request.None? && s.pendingKick.None? && OnField(s.body)
    && s.deployed == {} && s.kicked == map[] && s.readyAt == map[] && s.bounced == {}
  }

  lemma FreshRests(c: Config, s: State)
    requires Fresh(s)
    ensures Rest(c, s)
  {
  }

  lemma SteppedSound(c: Config, s: State, body: V3)
    requires Rest(c, s)
    requires (OnField(Target(s)) ==> OnField(body)) && (Parked(Target(s)) ==> Parked(body))
    ensures Sound(c, Stepped(s, body), [])
    ensures Launches(Stepped(s, body)) ==> s.holder.None?
    ensures s.pendingKick.Some? && s.holder.None? ==> Launches(Stepped(s, body))
  {
    Sides(body);
    hide OnField, Parked;
  }

  /** During an update the measured position stays on the field, or where it was. */
  lemma UpdatePosition(c: Config, scene: Scene, s: State, timestep: real)
    requires HolderPresent(scene, s) && MouthsOnField(scene)
    ensures var v := Update(c, scene, s, timestep);
            (v.ball.position == s.ball.position || OnField(v.ball.position)) && v.body == s.body
  {
    PreparedKeeps(c, scene, s, timestep);
    var p := Prepared(c, scene, s, timestep);
    var q := Resolve(c, scene, p);
    KeysDistinct(scene);
    ResolvePosition(c, scene, p);
    TurnsOwn(c, scene, q, scene.Keys());
    hide Prepared, Resolve, Turns, Mouth, Scene.Keys;
  }

  lemma ResolvePosition(c: Config, scene: Scene, s: State)
    requires HolderPresent(scene, s) && MouthsOnField(scene)
    ensures var v := Resolve(c, scene, s);
            (v.ball.position == s.ball.position || OnField(v.ball.position)) && v.body == s.body && v.ball.nowMs == s.ball.nowMs
            && v.readyAt == s.readyAt && v.kicked == s.kicked
  {
    hide Contest, Mouth, OnField;
  }

  lemma {:induction false} TurnsOwn(c: Config, scene: Scene, s: State, keys: seq<Key>)
    requires AllIn(scene, keys)
    ensures var v := Turns(c, scene, s, keys);
            v.ball == s.ball && v.body == s.body && v.winner == s.winner
  {
    hide Turn;
    if keys != [] {
      var n := |keys| - 1;
      TurnsOwn(c, scene, s, keys[..n]);
      TurnOwn(c, Turns(c, scene, s, keys[..n]), scene.At(keys[n]), keys[n]);
    }
  }

  /** A frame keeps the invariant, gives a deferred kick only to a free ball on the field, and what it
      publishes lies on the field. */
  lemma FrameRests(c: Config, scene: Scene, s: State, body: V3, timestep: real)
    requires Rest(c, s) && HolderPresent(scene, s) && MouthsOnField(scene) && 0.0 < timestep
    requires (OnField(Target(s)) ==> OnField(body)) && (Parked(Target(s)) ==> Parked(body))
    ensures Rest(c, FrameStep(c, scene, s, body, timestep))
    ensures OnField(FrameStep(c, scene, s, body, timestep).ball.position)
  {
    var b := Stepped(s, body);
    SteppedSound(c, s, body);
    UpdateSound(c, scene, b, timestep);
    UpdatePosition(c, scene, b, timestep);
    PublishRests(c, scene, b, Update(c, scene, b, timestep));
    hide Update, Sound, InTurn;
  }

  lemma PublishRests(c: Config, scene: Scene, b: State, v: State)
    requires InTurn(c, v, scene.Keys()) && HolderPresent(scene, v) && MouthsOnField(scene)
    requires Parked(b.body) ==> OnField(b.ball.position)
    requires (v.ball.position == b.ball.position || OnField(v.ball.position)) && v.body == b.body
    ensures Rest(c, Publish(scene, v)) && OnField(Publish(scene, v).ball.position)
  {
    MouthLow(scene, v);
    hide OnField, Parked, Mouth, Mentions, Scene.Keys;
  }

  lemma MouthLow(scene: Scene, v: State)
    requires HolderPresent(scene, v)
    ensures v.holder.Some? ==> Mouth(scene.At(v.holder.value)).y < WINDOW_HEIGHT
  {
  }

  /** A placement keeps the invariant exactly when it places the ball on the field. */
  lemma PlaceRests(c: Config, teams: Teams, s: State, position: V3, velocity: Option<V3>)
    requires Rest(c, s) && HolderFits(teams, s)
    ensures Rest(c, Place(s, position, velocity, teams.nb, teams.ny)) <==> OnField(position)
    ensures Place(s, position, velocity, teams.nb, teams.ny).pendingKick.None?
  {
    assert s.holder.Some? ==> s.holder.value in TeamSet(false, teams.nb) + TeamSet(true, teams.ny);
    hide OnField, Parked;
  }

  /** In every reachable state the ball's body is parked, or about to be, exactly while a robot holds
      the ball, and only the holder's mouth collider is out. After every frame the published ball
      lies on the field, even in the frame after a placement that took the ball from a holder, and a
      deferred kick is only ever given to a free ball on the field. */
  lemma {:induction false} ParkedExactlyWhileHeld(c: Config, teams: Teams, s: State, events: seq<Event>, n: nat)
    requires Fresh(s) && AllFit(teams, events) && LawfulRun(c, teams, s, events) && n <= |events|
    ensures Rest(c, Run(c, teams, s, events, n))
    ensures n > 0 && events[n - 1].Frame? ==> OnField(Run(c, teams, s, events, n).ball.position)
    ensures n > 0 && events[n - 1].Frame? && Launches(Stepped(Run(c, teams, s, events, n - 1), events[n - 1].body)) ==>
              Run(c, teams, s, events, n - 1).holder.None? && OnField(events[n - 1].body)
  {
    hide Rest, FrameStep, Place, RealRobots, MouthsOnField, OnField, Parked;
    if n == 0 {
      FreshRests(c, s);
    } else {
      ParkedExactlyWhileHeld(c, teams, s, events, n - 1);
      var t := Run(c, teams, s, events, n - 1);
      assert Lawful(c, t, events[n - 1]);
      match events[n - 1]
      case Frame(scene, body, timestep) =>
        SteppedSound(c, t, body);
        FrameRests(c, scene, t, body, timestep);
      case Placing(position, velocity) => PlaceRests(c, teams, t, position, velocity);
    }
  }

  lemma FrameLeavesBody(c: Config, teams: Teams, s: State, e: Event)
    requires HolderFits(teams, s) && EventFits(teams, e) && e.Frame? && MouthsOnField(e.scene)
    ensures Step(c, teams, s, e).body == e.body
  {
    UpdatePosition(c, e.scene, Stepped(s, e.body), e.timestep);
    hide Update, Mouth, OnField, MouthsOnField;
  }

  /** What a placement shows until the next frame: the position on the field exactly when nobody held
      the ball at the last physics step. A robot that caught the ball in the last frame has not had it
      parked yet, and one that let go of it in the last frame has not had it brought back yet. */
  lemma {:induction false} PlacingShowsOldBody(c: Config, teams: Teams, s: State, events: seq<Event>, frame: nat, n: nat)
    requires Fresh(s) && AllFit(teams, events) && LawfulRun(c, teams, s, events)
    requires frame < n < |events| && events[frame].Frame? && forall i :: frame < i <= n ==> events[i].Placing?
    ensures OnField(Run(c, teams, s, events, n + 1).ball.position) <==> Run(c, teams, s, events, frame).holder.None?
  {
    PlacingsKeepBody(c, teams, s, events, frame, n);
    ParkedExactlyWhileHeld(c, teams, s, events, frame);
    var t := Run(c, teams, s, events, frame);
    var e := events[frame];
    assert Lawful(c, t, e);
    SteppedSound(c, t, e.body);
    Sides(e.body);
    hide Step, OnField, Parked, RealRobots, MouthsOnField;
    PlacingLeavesBody(c, teams, Run(c, teams, s, events, n), events[n]);
  }

  lemma {:induction false} PlacingsKeepBody(c: Config, teams: Teams, s: State, events: seq<Event>, frame: nat, n: nat)
    requires HolderFits(teams, s) && AllFit(teams, events) && LawfulRun(c, teams, s, events)
    requires frame < n <= |events| && events[frame].Frame? && forall i :: frame < i < n ==> events[i].Placing?
    ensures Run(c, teams, s, events, n).body == events[frame].body
    decreases n
  {
    hide Step, LawfulRun, Lawful;
    var t := Run(c, teams, s, events, n - 1);
    if n == frame + 1 {
      LawfulFrame(c, teams, s, events, frame);
      FrameLeavesBody(c, teams, t, events[frame]);
    } else {
      PlacingsKeepBody(c, teams, s, events, frame, n - 1);
      PlacingLeavesBody(c, teams, t, events[n - 1]);
    }
  }

  lemma LawfulFrame(c: Config, teams: Teams, s: State, events: seq<Event>, i: nat)
    requires HolderFits(teams, s) && AllFit(teams, events) && LawfulRun(c, teams, s, events) && i < |events| && events[i].Frame?
    ensures MouthsOnField(events[i].scene)
  {
    hide Run, MouthsOnField, RealRobots, OnField, Parked;
    assert Lawful(c, Run(c, teams, s, events, i), events[i]);
  }

  lemma PlacingLeavesBody(c: Config, teams: Teams, s: State, e: Event)
    requires HolderFits(teams, s) && EventFits(teams, e) && e.Placing?
    ensures Step(c, teams, s, e).body == s.body && Step(c, teams, s, e).ball.position == s.body
  {
    hide TeamSet;
  }
}
