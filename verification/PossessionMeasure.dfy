/** The measured ball: what moves where with which velocity, when a placement is seen to land, what a placement
    wipes out, and what is published. */
module PossessionMeasure {
  import opened Options
  import opened RealMath
  import opened BallContact
  import opened KickLimits
  import opened Rebound
  import opened Possession
  import opened PossessionInvariant
  import opened PossessionContest
  import opened PossessionExclusion
  import opened PossessionRuns
  import opened PossessionKicks
  import opened PossessionHistory
  import opened PossessionTurns

  // --- velocities ---------------------------------------------------------------------------------------------------

  /** A ball that leaves p with velocity v [m/s, that is mm/ms] is at q after dt milliseconds. */
  ghost predicate Moves(p: V3, v: V3, dt: real, q: V3) {
    p.x + v.x * dt == q.x && p.y + v.y * dt == q.y && p.z + v.z * dt == q.z
  }

  lemma DifferenceMoves(p: V3, q: V3, dt: real)
    requires dt != 0.0
    ensures Moves(p, Difference(q, p, dt), dt, q)
  {
  }

  /** v is given in m/s, u in mm/s. */
  ghost predicate SameVelocity(v: V3, u: V3) {
    1000.0 * v.x == u.x && 1000.0 * v.y == u.y && 1000.0 * v.z == u.z
  }

  lemma RequestedVelocity(u: V3)
    ensures SameVelocity(MetresPerSecond(u), u)
  {
  }

  lemma {:induction false} DifferencesAt(frames: seq<Seen>, first: nat, n: nat, j: nat)
    requires first < n <= |frames| && TimePasses(frames) && j < n - 1 - first
    ensures |Differences(frames, first, n)| == n - 1 - first
    ensures Moves(frames[n - 2 - j].position, Differences(frames, first, n)[j], frames[n - 1 - j].timestep,
                  frames[n - 1 - j].position)
    decreases n
  {
    hide Difference, Moves;
    DifferencesCount(frames, first, n);
    if j == 0 {
      DifferenceMoves(frames[n - 2].position, frames[n - 1].position, frames[n - 1].timestep);
    } else {
      DifferencesAt(frames, first, n - 1, j - 1);
      DifferencesCount(frames, first, n - 1);
    }
  }

  lemma {:induction false} DifferencesCount(frames: seq<Seen>, first: nat, n: nat)
    requires first < n <= |frames| && TimePasses(frames)
    ensures |Differences(frames, first, n)| == n - 1 - first
    decreases n
  {
    hide Difference;
    if first + 1 < n {
      DifferencesCount(frames, first, n - 1);
    }
  }

  /** What the retained velocities say of the frames since the landing of a placement with velocity `asked`. */
  ghost predicate Retains(recent: seq<V3>, frames: seq<Seen>, landing: nat, asked: V3)
    requires landing < |frames|
  {
    var since := |frames| - 1 - landing;
    && |recent| == (if since < 3 then since + 1 else 3)
    && (forall j :: 0 <= j < |recent| && j < since ==>
          Moves(frames[|frames| - 2 - j].position, recent[j], frames[|frames| - 1 - j].timestep,
                frames[|frames| - 1 - j].position))
    && (since < 3 ==> SameVelocity(recent[since], asked))
  }

  lemma DifferencesRetained(frames: seq<Seen>, landing: nat, asked: V3)
    requires TimePasses(frames) && landing < |frames|
    ensures Retains(LastThree(Differences(frames, landing, |frames|) + [MetresPerSecond(asked)]), frames, landing, asked)
  {
    var n := |frames|;
    var all := Differences(frames, landing, n) + [MetresPerSecond(asked)];
    var since := n - 1 - landing;
    DifferencesCount(frames, landing, n);
    RequestedVelocity(asked);
    hide Difference, MetresPerSecond, Moves, SameVelocity, Differences, TimePasses;
    forall j | 0 <= j < |LastThree(all)| && j < since
      ensures Moves(frames[n - 2 - j].position, LastThree(all)[j], frames[n - 1 - j].timestep, frames[n - 1 - j].position)
    {
      DifferencesAt(frames, landing, n, j);
      assert LastThree(all)[j] == Differences(frames, landing, n)[j];
    }
  }

  /** In every run, after a placement has landed, each retained velocity - the newest three at most, newest first -
      leads from where one frame saw the ball to where the next one saw it, in the time of that frame; the oldest
      one is the requested velocity while less than three frames have passed since. */
  lemma RetainedVelocities(c: Config, teams: Teams, s: State, events: seq<Event>, place: nat, landing: nat, n: nat)
    requires Fresh(s) && AllFit(teams, events) && LawfulRun(c, teams, s, events)
    requires place < n && place < |events| && events[place].Placing? && FramesOnly(events, place + 1, n)
    requires landing < n - place - 1
    requires var b := Run(c, teams, s, events, place + 1).ball;
             var frames := SeenFrames(c, teams, s, events, place + 1, n);
             && b.placement.Some? && (forall i :: 0 <= i < landing ==> !LandsAt(c, b, frames, i))
             && LandsAt(c, b, frames, landing)
    ensures var asked := events[place].velocity;
            Retains(Run(c, teams, s, events, n).ball.recent, SeenFrames(c, teams, s, events, place + 1, n), landing,
                    if asked.Some? then asked.value else V3(0.0, 0.0, 0.0))
  {
    hide LawfulRun, LastThree, MetresPerSecond, LandsAt, SeenFrames, Differences, Run, Retains;
    HistoryOfRun(c, teams, s, events, place, landing, n);
    var frames := SeenFrames(c, teams, s, events, place + 1, n);
    var asked := events[place].velocity;
    DifferencesRetained(frames, landing, if asked.Some? then asked.value else ORIGIN);
  }

  // --- one frame of a run -----------------------------------------------------------------------------------------------

  lemma RefreshMoves(c: Config, b: Tracked, p: V3, timestep: real, q: Sample)
    requires 0.0 < timestep && b.placement.None? && b.prevSample == Some(q) && q.timeMs == b.nowMs
    ensures var v := Refresh(c, b, Some(p), timestep).0;
            && Moves(q.position, v.velocity, timestep, p) && v.before == b.velocity
            && v.recent == (if |b.recent| < 3 then [v.velocity] + b.recent else [v.velocity] + b.recent[..2])
            && v.placement.None? && v.prevSample == Some(Sample(p, v.nowMs)) && v.nowMs == b.nowMs + timestep
  {
    var t := b.(nowMs := b.nowMs + timestep, timestepMs := timestep);
    MeasureStep(t, p, q.position, timestep, b.nowMs);
    DifferenceMoves(q.position, p, timestep);
    hide Difference, Moves, Landed, MetresPerSecond;
    var d := [Difference(p, q.position, timestep)];
    assert |b.recent| >= 3 ==> (d + b.recent)[..3] == d + b.recent[..2];
  }

  /** The frame measured the ball at p. */
  ghost predicate SampledAt(b: Tracked, p: V3) {
    b.placement.None? && b.prevSample == Some(Sample(p, b.nowMs))
  }

  lemma RefreshSamples(c: Config, b: Tracked, p: V3, timestep: real)
    ensures var v := Refresh(c, b, Some(p), timestep).0;
            v.placement.None? ==> SampledAt(v, p)
  {
    hide Landed, Difference, Newest, MetresPerSecond;
  }

  /** After a frame without an outstanding placement the ball has been sampled where that frame saw it: in the
      holder's mouth, or where the free body is. */
  lemma FrameSamples(c: Config, teams: Teams, s: State, events: seq<Event>, n: nat)
    requires Fresh(s) && AllFit(teams, events) && LawfulRun(c, teams, s, events) && n < |events| && events[n].Frame?
    requires Run(c, teams, s, events, n + 1).ball.placement.None?
    ensures var t := Run(c, teams, s, events, n);
            && events[n].timestep > 0.0
            && SampledAt(Run(c, teams, s, events, n + 1).ball, SeenIn(c, teams, s, events, n).position)
            && (t.holder.Some? ==> events[n].scene.Has(t.holder.value))
            && SeenIn(c, teams, s, events, n).position
               == if t.holder.Some? then InFront(events[n].scene.At(t.holder.value)) else events[n].body
  {
    var t := Run(c, teams, s, events, n);
    var e := events[n];
    FrameIsDetermined(c, teams, s, events, n);
    assert EventFits(teams, e);
    SeenWhere(e.scene, Stepped(t, e.body));
    assert Run(c, teams, s, events, n + 1) == Step(c, teams, t, e);
    hide Run, LawfulRun, SeenIn, Current, FrameStep, Refresh, InFront;
    FrameAlike(c, e.scene, t, e.body, e.timestep);
    RefreshSamples(c, Stepped(t, e.body).ball, SeenIn(c, teams, s, events, n).position, e.timestep);
  }

  lemma SeenWhere(scene: Scene, b: State)
    requires HolderPresent(scene, b)
    ensures Current(scene, b)
         == if b.holder.Some? then Some(InFront(scene.At(b.holder.value)))
            else if -50000.0 < b.body.x < 50000.0 && -50000.0 < b.body.z < 50000.0 then Some(b.body) else None
  {
  }

  /** In every run, a frame that follows a frame without an outstanding placement measures the velocity that
      leads from where that frame saw the ball to where this one does, keeps the velocity of that frame as the one
      before, and adds it to the newest three. */
  lemma FrameMeasures(c: Config, teams: Teams, s: State, events: seq<Event>, n: nat)
    requires Fresh(s) && AllFit(teams, events) && LawfulRun(c, teams, s, events)
    requires n + 1 < |events| && events[n].Frame? && events[n + 1].Frame?
    requires Run(c, teams, s, events, n + 1).ball.placement.None?
    ensures var was := Run(c, teams, s, events, n + 1).ball;
            var b := Run(c, teams, s, events, n + 2).ball;
            && Moves(SeenIn(c, teams, s, events, n).position, b.velocity, events[n + 1].timestep,
                     SeenIn(c, teams, s, events, n + 1).position)
            && b.before == was.velocity
            && b.recent == (if |was.recent| < 3 then [b.velocity] + was.recent else [b.velocity] + was.recent[..2])
  {
    hide Run, LawfulRun, SeenIn, SampledAt, Moves;
    FrameSamples(c, teams, s, events, n);
    NextFrame(c, teams, s, events, n + 1, SeenIn(c, teams, s, events, n).position);
  }

  lemma NextFrame(c: Config, teams: Teams, s: State, events: seq<Event>, n: nat, p: V3)
    requires Fresh(s) && AllFit(teams, events) && LawfulRun(c, teams, s, events) && n < |events| && events[n].Frame?
    requires SampledAt(Run(c, teams, s, events, n).ball, p)
    ensures var was := Run(c, teams, s, events, n).ball;
            var b := Run(c, teams, s, events, n + 1).ball;
            && Moves(p, b.velocity, events[n].timestep, SeenIn(c, teams, s, events, n).position)
            && b.before == was.velocity
            && b.recent == (if |was.recent| < 3 then [b.velocity] + was.recent else [b.velocity] + was.recent[..2])
  {
    var t := Run(c, teams, s, events, n);
    var e := events[n];
    FrameIsDetermined(c, teams, s, events, n);
    assert EventFits(teams, e);
    assert Run(c, teams, s, events, n + 1) == Step(c, teams, t, e);
    hide Run, LawfulRun, SeenIn, Current, FrameStep, Refresh, Moves;
    FrameAlike(c, e.scene, t, e.body, e.timestep);
    RefreshMoves(c, Stepped(t, e.body).ball, SeenIn(c, teams, s, events, n).position, e.timestep, Sample(p, t.ball.nowMs));
  }

  // --- placements ---------------------------------------------------------------------------------------------------------

  /** A placement leaves nothing of what was before: the ball is to be put down at rest, nobody holds it or has a
      lock, a bounce mark, a sensor that reads it or a collider out, no kick waits and nothing is measured. */
  lemma PlacementForgets(c: Config, teams: Teams, s: State, e: Event)
    requires HolderFits(teams, s) && EventFits(teams, e) && e.Placing?
    ensures var v := Step(c, teams, s, e);
            && v.request == Some(Reset(e.position, V3(0.0, 0.0, 0.0))) && v.pendingKick.None? && v.holder.None?
            && v.kicked == map[] && v.bounced == {}
            && (forall k: Key :: Fits(teams, k) ==> k !in v.holds && k !in v.deployed)
            && v.ball.velocity == V3(0.0, 0.0, 0.0) && v.ball.recent == [] && v.ball.prevSample.None?
            && v.ball.placement == Some(Placement(e.position,
                                                  if e.velocity.Some? then e.velocity.value else V3(0.0, 0.0, 0.0), s.ball.nowMs))
            && v.body == s.body && v.readyAt == s.readyAt && v.ball.position == s.body
  {
    var all := TeamSet(false, teams.nb) + TeamSet(true, teams.ny);
    forall k: Key | Fits(teams, k) ensures k in all {
      assert k == Key(k.isYellow, k.id);
    }
    hide TeamSet;
  }

  /** The ball is seen within 5 mm and 50 ms of its requested motion of the place it was put to. */
  ghost predicate SeenThere(c: Config, place: Placement, p: V3) {
    c.hyp(p.x - place.position.x, p.z - place.position.z) <= 5.0 + 0.05 * c.hyp(place.velocity.x, place.velocity.z)
  }

  /** A frame sees an outstanding placement land exactly when it sees the ball there or 250 ms have passed since
      it was asked for. The ball then has the requested velocity, and nothing else is remembered; until then
      nothing is measured. */
  lemma LandsExactly(c: Config, teams: Teams, s: State, events: seq<Event>, n: nat)
    requires Fresh(s) && AllFit(teams, events) && LawfulRun(c, teams, s, events) && n < |events| && events[n].Frame?
    requires Run(c, teams, s, events, n).ball.placement.Some?
    ensures var was := Run(c, teams, s, events, n).ball;
            var b := Run(c, teams, s, events, n + 1).ball;
            var place := was.placement.value;
            && (b.placement.None? <==>
                  || SeenThere(c, place, SeenIn(c, teams, s, events, n).position)
                  || 250.0 <= was.nowMs + events[n].timestep - place.requestedMs)
            && (b.placement.None? ==> SameVelocity(b.velocity, place.velocity) && b.before == b.velocity && b.recent == [b.velocity])
            && (b.placement.Some? ==>
                  b == was.(nowMs := b.nowMs, timestepMs := b.timestepMs, position := b.position))
  {
    var t := Run(c, teams, s, events, n);
    var e := events[n];
    FrameIsDetermined(c, teams, s, events, n);
    assert EventFits(teams, e);
    assert Run(c, teams, s, events, n + 1) == Step(c, teams, t, e);
    hide Run, LawfulRun, SeenIn, Current, FrameStep, Refresh, SameVelocity, SeenThere;
    FrameAlike(c, e.scene, t, e.body, e.timestep);
    RefreshLands(c, Stepped(t, e.body).ball, SeenIn(c, teams, s, events, n).position, e.timestep);
  }

  lemma RefreshLands(c: Config, b: Tracked, p: V3, timestep: real)
    requires b.placement.Some?
    ensures var v := Refresh(c, b, Some(p), timestep).0;
            var place := b.placement.value;
            && (v.placement.None? <==> SeenThere(c, place, p) || 250.0 <= b.nowMs + timestep - place.requestedMs)
            && (v.placement.None? ==> SameVelocity(v.velocity, place.velocity) && v.before == v.velocity && v.recent == [v.velocity])
            && (v.placement.Some? ==> v == b.(nowMs := v.nowMs, timestepMs := v.timestepMs))
  {
    RequestedVelocity(b.placement.value.velocity);
    LandedIs(c, b.placement.value, p, b.nowMs + timestep);
    hide MetresPerSecond, SameVelocity, Landed, SeenThere;
  }

  lemma LandedIs(c: Config, place: Placement, p: V3, now: real)
    ensures Landed(c, place, p, now) <==> SeenThere(c, place, p) || 250.0 <= now - place.requestedMs
  {
    var h := c.hyp(place.velocity.x, place.velocity.z);
    assert h * 0.05 == 0.05 * h;
  }

  // --- what is published ------------------------------------------------------------------------------------------

  /** What a frame publishes: the ball in the mouth of the robot that holds it after the frame, else the body if
      it is on the field. A body that is not is one that the frame before still had parked: then the ball is
      published where the frame saw it last. */
  lemma PublishedWhere(c: Config, scene: Scene, s: State, body: V3, timestep: real)
    requires HolderPresent(scene, s)
    ensures var u := Update(c, scene, Stepped(s, body), timestep);
            var v := FrameStep(c, scene, s, body, timestep);
            && v == u.(ball := u.ball.(position := v.ball.position))
            && v.ball.position == if u.holder.Some? then InFront(scene.At(u.holder.value))
                                  else if -50000.0 < body.x < 50000.0 && -50000.0 < body.z < 50000.0 then body
                                  else u.ball.position
  {
    var u := Update(c, scene, Stepped(s, body), timestep);
    BodyStays(c, scene, Stepped(s, body), timestep);
    hide Update;
  }

  lemma BodyStays(c: Config, scene: Scene, s: State, timestep: real)
    requires HolderPresent(scene, s)
    ensures Update(c, scene, s, timestep).body == s.body
  {
    var p := Prepared(c, scene, s, timestep);
    PreparedKeeps(c, scene, s, timestep);
    KeysDistinct(scene);
    ResolveBody(c, scene, p);
    hide Prepared, Resolve, Turns, Scene.Keys, OnField;
    TurnsOwn(c, scene, Resolve(c, scene, p), scene.Keys());
  }

  lemma ResolveBody(c: Config, scene: Scene, s: State)
    requires HolderPresent(scene, s)
    ensures Resolve(c, scene, s).body == s.body
  {
    hide Contest, Mouth;
  }
}
