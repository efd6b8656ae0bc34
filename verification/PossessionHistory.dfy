/** The ball's measured velocities: the last three, newest first, never a difference over a jump. */
module PossessionHistory {
  import opened Options
  import opened RealMath
  import opened BallContact
  import opened Possession
  import opened PossessionInvariant
  import opened PossessionContest
  import opened PossessionExclusion
  import opened PossessionRuns
  import opened PossessionKicks

  /** What one frame saw of the ball. */
  datatype Seen = Seen(position: V3, timestep: real)

  /** The measurement after the first n frames. */
  function Watch(c: Config, b: Tracked, frames: seq<Seen>, n: nat): Tracked
    requires n <= |frames|
  {
    if n == 0 then b
    else Refresh(c, Watch(c, b, frames, n - 1), Some(frames[n - 1].position), frames[n - 1].timestep).0
  }

  /** Velocities between consecutive frames after frame `first`, newest first. */
  function Differences(frames: seq<Seen>, first: nat, n: nat): seq<V3>
    requires first < n <= |frames| && TimePasses(frames)
    decreases n
  {
    if n == first + 1 then []
    else
      [Difference(frames[n - 1].position, frames[n - 2].position, frames[n - 1].timestep)] + Differences(frames, first, n - 1)
  }

  predicate TimePasses(frames: seq<Seen>) {
    forall i :: 0 <= i < |frames| ==> 0.0 < frames[i].timestep
  }

  function LastThree(all: seq<V3>): seq<V3> {
    if |all| <= HISTORY then all else all[..HISTORY]
  }

  ghost predicate LandsAt(c: Config, b: Tracked, frames: seq<Seen>, i: nat)
    requires i < |frames| && b.placement.Some?
  {
    Landed(c, b.placement.value, frames[i].position, Watch(c, b, frames, i).nowMs + frames[i].timestep)
  }

  /** Until the placement lands nothing is measured. */
  lemma {:induction false} NothingBeforeLanding(c: Config, b: Tracked, frames: seq<Seen>, n: nat)
    requires n <= |frames| && b.placement.Some? && forall i :: 0 <= i < n ==> !LandsAt(c, b, frames, i)
    ensures var v := Watch(c, b, frames, n);
            v == b.(nowMs := v.nowMs, timestepMs := v.timestepMs)
  {
    hide Landed, Measured;
    if n > 0 {
      NothingBeforeLanding(c, b, frames, n - 1);
      assert !LandsAt(c, b, frames, n - 1);
    }
  }

  lemma SameDifference(p: V3, q: V3, a: real, b: real)
    requires a == b && a != 0.0
    ensures Difference(p, q, a) == Difference(p, q, b)
  {
  }

  lemma MeasureStep(t: Tracked, p: V3, q: V3, dt: real, before: real)
    requires t.placement.None? && t.prevSample == Some(Sample(q, before)) && t.nowMs == before + dt && 0.0 < dt
    ensures var v := Measured(t, p);
            && v.recent == LastThree([Difference(p, q, dt)] + t.recent) && v.velocity == Difference(p, q, dt) && v.before == t.velocity
            && v.placement.None? && v.prevSample == Some(Sample(p, t.nowMs)) && v.nowMs == t.nowMs
  {
    SameDifference(p, q, dt, t.nowMs - before);
    hide Difference;
  }

  lemma LastThreeOf(v: V3, all: seq<V3>)
    ensures LastThree([v] + LastThree(all)) == LastThree([v] + all)
  {
  }

  ghost predicate Measuring(v: Tracked, p: V3, recent: seq<V3>) {
    v.placement.None? && v.recent == LastThree(recent) && v.prevSample == Some(Sample(p, v.nowMs))
  }

  /** From the frame in which a placement lands, the history is the requested velocity followed by the
      differences between consecutive frames since then, cut to the newest three: no difference spans
      the jump, and none uses a position measured before it. */
  lemma {:induction false} HistoryAfterPlacement(c: Config, b: Tracked, body: V3, position: V3, velocity: V3,
                                                 frames: seq<Seen>, landing: nat, n: nat)
    requires TimePasses(frames) && landing < n <= |frames|
    requires var a := Awaiting(b, body, position, velocity);
             LandsAt(c, a, frames, landing) && forall i :: 0 <= i < landing ==> !LandsAt(c, a, frames, i)
    ensures var v := Watch(c, Awaiting(b, body, position, velocity), frames, n);
            && Measuring(v, frames[n - 1].position, Differences(frames, landing, n) + [MetresPerSecond(velocity)])
            && |v.recent| <= HISTORY
    decreases n
  {
    hide Landed, Difference, MetresPerSecond, Watch, Refresh, Awaiting, Measuring;
    var a := Awaiting(b, body, position, velocity);
    if n == landing + 1 {
      AwaitingIs(b, body, position, velocity);
      NothingBeforeLanding(c, a, frames, landing);
      LandingMeasured(c, a, Watch(c, a, frames, landing), frames[landing]);
      assert Differences(frames, landing, n) + [MetresPerSecond(velocity)] == [MetresPerSecond(velocity)];
      WatchStep(c, a, frames, n);
    } else {
      HistoryAfterPlacement(c, b, body, position, velocity, frames, landing, n - 1);
      WatchStep(c, a, frames, n);
      MeasuringStep(c, Watch(c, a, frames, n - 1), frames, landing, n, MetresPerSecond(velocity));
    }
  }

  lemma AwaitingIs(b: Tracked, body: V3, position: V3, velocity: V3)
    ensures Awaiting(b, body, position, velocity).placement == Some(Placement(position, velocity, b.nowMs))
  {
  }

  lemma WatchStep(c: Config, b: Tracked, frames: seq<Seen>, n: nat)
    requires 0 < n <= |frames|
    ensures Watch(c, b, frames, n) == Refresh(c, Watch(c, b, frames, n - 1), Some(frames[n - 1].position), frames[n - 1].timestep).0
  {
  }

  lemma LandingMeasured(c: Config, a: Tracked, u: Tracked, f: Seen)
    requires a.placement.Some? && u == a.(nowMs := u.nowMs, timestepMs := u.timestepMs)
    requires Landed(c, a.placement.value, f.position, u.nowMs + f.timestep)
    ensures var v := Refresh(c, u, Some(f.position), f.timestep).0;
            Measuring(v, f.position, [MetresPerSecond(a.placement.value.velocity)]) && |v.recent| <= HISTORY
  {
    hide Landed, MetresPerSecond;
  }

  lemma MeasuringStep(c: Config, u: Tracked, frames: seq<Seen>, landing: nat, n: nat, requested: V3)
    requires TimePasses(frames) && landing + 1 < n <= |frames|
    requires Measuring(u, frames[n - 2].position, Differences(frames, landing, n - 1) + [requested])
    ensures var v := Refresh(c, u, Some(frames[n - 1].position), frames[n - 1].timestep).0;
            Measuring(v, frames[n - 1].position, Differences(frames, landing, n) + [requested]) && |v.recent| <= HISTORY
  {
    hide Landed, Difference, Measured, LastThree;
    var f := frames[n - 1];
    var t := u.(nowMs := u.nowMs + f.timestep, timestepMs := f.timestep);
    MeasureStep(t, f.position, frames[n - 2].position, f.timestep, u.nowMs);
    var d := Difference(f.position, frames[n - 2].position, f.timestep);
    var older := Differences(frames, landing, n - 1) + [requested];
    LastThreeOf(d, older);
    assert [d] + older == Differences(frames, landing, n) + [requested];
    LastThreeShort([d] + older);
  }

  lemma LastThreeShort(all: seq<V3>)
    ensures |LastThree(all)| <= HISTORY
  {
  }

  // --- the protocol's own runs --------------------------------------------------------------------------

  /** Equal but for the position, which the contest and the publication also set. */
  ghost predicate Alike(a: Tracked, b: Tracked) {
    a == b.(position := a.position)
  }

  lemma RefreshAlike(c: Config, a: Tracked, b: Tracked, p: V3, timestep: real)
    requires Alike(a, b)
    ensures Alike(Refresh(c, a, Some(p), timestep).0, Refresh(c, b, Some(p), timestep).0)
  {
    hide Landed, Difference, Newest, MetresPerSecond;
  }

  lemma ResolveAlike(c: Config, scene: Scene, s: State)
    requires HolderPresent(scene, s)
    ensures Alike(Resolve(c, scene, s).ball, s.ball)
  {
    hide Contest, Mouth;
  }

  /** After a frame the measurement is the refreshed one. */
  lemma FrameAlike(c: Config, scene: Scene, s: State, body: V3, timestep: real)
    requires HolderPresent(scene, s)
    ensures var b := Stepped(s, body);
            Alike(FrameStep(c, scene, s, body, timestep).ball, Refresh(c, b.ball, Current(scene, b), timestep).0)
  {
    var b := Stepped(s, body);
    var p := Prepared(c, scene, b, timestep);
    PreparedKeeps(c, scene, b, timestep);
    assert p.ball == Refresh(c, b.ball, Current(scene, b), timestep).0;
    KeysDistinct(scene);
    hide Prepared, Refresh, Resolve, Turns, Current, Scene.Keys;
    ResolveAlike(c, scene, p);
    TurnsOwn(c, scene, Resolve(c, scene, p), scene.Keys());
    PublishEntries(scene, Update(c, scene, b, timestep));
  }

  /** What frame i of a run saw of the ball. */
  ghost function SeenIn(c: Config, teams: Teams, s: State, events: seq<Event>, i: nat): Seen
    requires HolderFits(teams, s) && AllFit(teams, events) && i < |events| && events[i].Frame?
  {
    var current := Current(events[i].scene, Stepped(Run(c, teams, s, events, i), events[i].body));
    Seen(if current.Some? then current.value else ORIGIN, events[i].timestep)
  }

  ghost predicate FramesOnly(events: seq<Event>, from: nat, n: nat) {
    n <= |events| && forall i :: from <= i < n ==> events[i].Frame?
  }

  /** What the frames from `from` up to n saw. */
  ghost function SeenFrames(c: Config, teams: Teams, s: State, events: seq<Event>, from: nat, n: nat): (seen: seq<Seen>)
    requires HolderFits(teams, s) && AllFit(teams, events) && from <= n && FramesOnly(events, from, n)
    ensures |seen| == n - from
  {
    seq(n - from, j requires 0 <= j < n - from => SeenIn(c, teams, s, events, from + j))
  }

  /** In a lawful frame the ball's position is always determined. */
  lemma FrameIsDetermined(c: Config, teams: Teams, s: State, events: seq<Event>, i: nat)
    requires Fresh(s) && AllFit(teams, events) && LawfulRun(c, teams, s, events) && i < |events| && events[i].Frame?
    ensures Current(events[i].scene, Stepped(Run(c, teams, s, events, i), events[i].body))
         == Some(SeenIn(c, teams, s, events, i).position)
    ensures 0.0 < events[i].timestep == SeenIn(c, teams, s, events, i).timestep
  {
    var t := Run(c, teams, s, events, i);
    ParkedExactlyWhileHeld(c, teams, s, events, i);
    assert Lawful(c, t, events[i]);
    SteppedSound(c, t, events[i].body);
    hide Run, RealRobots, MouthsOnField, OnField, Parked, Mouth;
  }

  lemma WatchPrefix(c: Config, b: Tracked, frames: seq<Seen>, more: seq<Seen>, n: nat)
    requires n <= |frames| <= |more| && more[..|frames|] == frames
    ensures Watch(c, b, frames, n) == Watch(c, b, more, n)
  {
    hide Refresh;
    if n > 0 {
      WatchPrefix(c, b, frames, more, n - 1);
      assert more[..|frames|][n - 1] == frames[n - 1];
    }
  }

  /** Since its last placement a run measures what a watcher of its frames measures. */
  lemma {:induction false} RunIsWatch(c: Config, teams: Teams, s: State, events: seq<Event>, from: nat, n: nat)
    requires Fresh(s) && AllFit(teams, events) && LawfulRun(c, teams, s, events)
    requires from <= n && FramesOnly(events, from, n)
    ensures Alike(Run(c, teams, s, events, n).ball,
                  Watch(c, Run(c, teams, s, events, from).ball, SeenFrames(c, teams, s, events, from, n), n - from))
    decreases n
  {
    hide LawfulRun, SeenIn, Step, Current, Stepped, SeenFrames, Watch;
    var b := Run(c, teams, s, events, from).ball;
    var frames := SeenFrames(c, teams, s, events, from, n);
    if from < n {
      RunIsWatch(c, teams, s, events, from, n - 1);
      FrameIsDetermined(c, teams, s, events, n - 1);
      FramesMore(c, teams, s, events, from, n);
      WatchPrefix(c, b, SeenFrames(c, teams, s, events, from, n - 1), frames, n - 1 - from);
      WatchMore(c, b, frames, n - 1 - from);
      OneMoreFrame(c, teams, Run(c, teams, s, events, n - 1), events[n - 1], Watch(c, b, frames, n - 1 - from),
                   frames[n - 1 - from]);
    } else {
      WatchNone(c, b, frames);
    }
  }

  lemma WatchNone(c: Config, b: Tracked, frames: seq<Seen>)
    ensures Watch(c, b, frames, 0) == b
  {
  }

  lemma FramesMore(c: Config, teams: Teams, s: State, events: seq<Event>, from: nat, n: nat)
    requires HolderFits(teams, s) && AllFit(teams, events) && from < n && FramesOnly(events, from, n)
    ensures var frames := SeenFrames(c, teams, s, events, from, n);
            && frames[..n - 1 - from] == SeenFrames(c, teams, s, events, from, n - 1)
            && frames[n - 1 - from] == SeenIn(c, teams, s, events, n - 1)
  {
    hide SeenIn;
    assert from + (n - 1 - from) == n - 1;
  }

  lemma WatchMore(c: Config, b: Tracked, frames: seq<Seen>, n: nat)
    requires n < |frames|
    ensures Watch(c, b, frames, n + 1) == Refresh(c, Watch(c, b, frames, n), Some(frames[n].position), frames[n].timestep).0
  {
  }

  lemma OneMoreFrame(c: Config, teams: Teams, t: State, e: Event, w: Tracked, seen: Seen)
    requires HolderFits(teams, t) && EventFits(teams, e) && e.Frame? && Alike(t.ball, w) && seen.timestep == e.timestep
    requires Current(e.scene, Stepped(t, e.body)) == Some(seen.position)
    ensures Alike(Step(c, teams, t, e).ball, Refresh(c, w, Some(seen.position), seen.timestep).0)
  {
    hide FrameStep, Refresh, Current;
    FrameAlike(c, e.scene, t, e.body, e.timestep);
    RefreshAlike(c, t.ball, w, seen.position, e.timestep);
  }

  /** The history in whole runs. After the last placement nothing is measured until it lands; from then
      on the velocities kept are the last three of the requested one and the differences between
      consecutive frames since. */
  lemma HistoryOfRun(c: Config, teams: Teams, s: State, events: seq<Event>, place: nat, landing: nat, n: nat)
    requires Fresh(s) && AllFit(teams, events) && LawfulRun(c, teams, s, events)
    requires place < n && place < |events| && events[place].Placing? && FramesOnly(events, place + 1, n) && landing <= n - place - 1
    requires var b := Run(c, teams, s, events, place + 1).ball;
             var frames := SeenFrames(c, teams, s, events, place + 1, n);
             && b.placement.Some? && (forall i :: 0 <= i < landing ==> !LandsAt(c, b, frames, i))
             && (landing < n - place - 1 ==> LandsAt(c, b, frames, landing))
    ensures var ball := Run(c, teams, s, events, n).ball;
            var frames := SeenFrames(c, teams, s, events, place + 1, n);
            TimePasses(frames) &&
            if landing == n - place - 1 then ball.recent == [] && ball.prevSample.None? && ball.placement.Some?
            else
              var asked := events[place].velocity;
              && ball.placement.None? && |ball.recent| <= HISTORY
              && ball.recent == LastThree(Differences(frames, landing, n - place - 1)
                                          + [MetresPerSecond(if asked.Some? then asked.value else ORIGIN)])
  {
    hide LawfulRun, LastThree, MetresPerSecond, Landed, SeenFrames, Difference, Watch, LandsAt, Step, Awaiting;
    var t := Run(c, teams, s, events, place);
    var e := events[place];
    var asked := if e.velocity.Some? then e.velocity.value else ORIGIN;
    var frames := SeenFrames(c, teams, s, events, place + 1, n);
    SeenTimes(c, teams, s, events, place + 1, n);
    RunIsWatch(c, teams, s, events, place + 1, n);
    PlacedBall(c, teams, t, e);
    assert Run(c, teams, s, events, place + 1) == Step(c, teams, t, e);
    hide Run;
    WatchedHistory(c, Awaiting(t.ball, t.body, e.position, asked), t.ball, t.body, e.position, asked, frames, landing, n - place - 1);
  }

  lemma PlacedBall(c: Config, teams: Teams, t: State, e: Event)
    requires HolderFits(teams, t) && EventFits(teams, e) && e.Placing?
    ensures Step(c, teams, t, e).ball == Awaiting(t.ball, t.body, e.position, if e.velocity.Some? then e.velocity.value else ORIGIN)
  {
    hide TeamSet, Awaiting;
  }

  lemma WatchedHistory(c: Config, b: Tracked, ball: Tracked, body: V3, position: V3, velocity: V3,
                       frames: seq<Seen>, landing: nat, n: nat)
    requires TimePasses(frames) && b == Awaiting(ball, body, position, velocity) && landing <= n <= |frames|
    requires forall i :: 0 <= i < landing ==> !LandsAt(c, b, frames, i)
    requires landing < n ==> LandsAt(c, b, frames, landing)
    ensures var v := Watch(c, b, frames, n);
            if landing == n then v.recent == [] && v.prevSample.None? && v.placement.Some?
            else
              && v.placement.None? && |v.recent| <= HISTORY
              && v.recent == LastThree(Differences(frames, landing, n) + [MetresPerSecond(velocity)])
  {
    hide LastThree, MetresPerSecond, Landed, Difference, Watch, LandsAt;
    if landing == n {
      NothingBeforeLanding(c, b, frames, n);
    } else {
      HistoryAfterPlacement(c, ball, body, position, velocity, frames, landing, n);
    }
  }

  lemma SeenTimes(c: Config, teams: Teams, s: State, events: seq<Event>, from: nat, n: nat)
    requires Fresh(s) && AllFit(teams, events) && LawfulRun(c, teams, s, events)
    requires from <= n && FramesOnly(events, from, n)
    ensures TimePasses(SeenFrames(c, teams, s, events, from, n))
  {
    hide Run, LawfulRun, SeenIn, Current, Stepped;
    var frames := SeenFrames(c, teams, s, events, from, n);
    forall j | 0 <= j < |frames| ensures 0.0 < frames[j].timestep {
      FrameIsDetermined(c, teams, s, events, from + j);
    }
  }
}
