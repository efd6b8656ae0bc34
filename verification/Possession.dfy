/** Who has the ball: the possession and kick protocol of one physics frame, on values. The ball body
    is teleported and launched by requests that physics serves before the next frame, and a held ball
    is parked far off the field. */
module Possession {
  import opened Options
  import opened RealMath
  import opened BallContact
  import opened KickLimits
  import opened Rebound

  datatype Key = Key(isYellow: bool, id: nat)

  datatype Scene = Scene(blue: seq<Bot>, yellow: seq<Bot>)
  {
    function Team(isYellow: bool): seq<Bot> {
      if isYellow then yellow else blue
    }

    predicate Has(k: Key) {
      k.id < |Team(k.isYellow)|
    }

    function At(k: Key): Bot
      requires Has(k)
    {
      Team(k.isYellow)[k.id]
    }

    function Keys(): (r: seq<Key>)
      ensures forall i :: 0 <= i < |r| ==> Has(r[i])
    {
      TeamKeys(false, |blue|) + TeamKeys(true, |yellow|)
    }
  }

  function TeamKeys(isYellow: bool, n: nat): seq<Key> {
    seq(n, i requires 0 <= i < n => Key(isYellow, i))
  }

  /** Settings: hypot, the cosine of the half angle of the mouth window, kicker recharge [s], the
      relative speed from which a ball bounces off [mm/s], kicker efficiency, plate, decelerations. */
  datatype Config = Config(hyp: (real, real) -> real, mouthCos: real, rechargeSec: real, catchMax: real,
                           kickerFriction: real, plate: PlateModel, slideDecel: real, rollDecel: real)

  datatype Reset = Reset(position: V3, velocity: V3)
  datatype Placement = Placement(position: V3, velocity: V3, requestedMs: real)
  datatype Sample = Sample(position: V3, timeMs: real)

  /** The measured ball: position, velocity of this and of the frame before [m/s], the last few
      velocities (newest first), the last sample, a placement not seen to land yet, and the clock. */
  datatype Tracked = Tracked(
    position: V3, velocity: V3, before: V3, recent: seq<V3>,
    prevSample: Option<Sample>, placement: Option<Placement>, nowMs: real, timestepMs: real)

  /** Everything the protocol remembers. `body` is where physics last left the ball, `request` the
      teleport it serves before the next frame. Pending kicks are in mm/s. */
  datatype State = State(
    holder: Option<Key>, winner: Option<Key>,
    body: V3, request: Option<Reset>, pendingKick: Option<V3>, ball: Tracked,
    readyAt: map<Key, real>, kicked: map<Key, real>, bounced: set<Key>,
    holds: set<Key>, deployed: set<Key>)

  const FIELD_LIMIT := 50000.0
  const PARK := V3(100000.0, 0.0, 100000.0)
  const ORIGIN := V3(0.0, 0.0, 0.0)
  const MOUTH_REACH := 95.0
  const WINDOW_REACH := 110.0
  const WINDOW_HEIGHT := 40.0
  const TAKEOVER_MARGIN := 30.0
  const HISTORY := 3
  const LANDING_TIMEOUT := 250.0

  predicate OnField(p: V3) {
    Abs(p.x) < FIELD_LIMIT && Abs(p.z) < FIELD_LIMIT
  }

  predicate Parked(p: V3) {
    p.x > FIELD_LIMIT
  }

  /** Where the body is, or is about to be. */
  function Target(s: State): V3 {
    if s.request.Some? then s.request.value.position else s.body
  }

  // --- geometry of a mouth ----------------------------------------------------------------------

  /** The point in front of the robot where a held ball sits. */
  function Mouth(r: Bot): V3 {
    V3(r.position.x + MOUTH_REACH * r.heading.x, 25.0, r.position.y - MOUTH_REACH * r.heading.y)
  }

  function Distance(c: Config, r: Bot, ball: V3): real {
    c.hyp(r.position.x - ball.x, r.position.y - ball.z)
  }

  /** The ball is in the mouth: low, within the angle and nearer than the chord. The source compares
      the distance with 110 cos(angle) and the angle with pi / 15; both read off the distance `ahead`
      along the heading. A ball exactly at the centre counts by the direction atan2(0, 0). */
  predicate Window(c: Config, r: Bot, ball: V3) {
    var d := Distance(c, r, ball);
    var ahead := Dot(V2(ball.x - r.position.x, ball.z - r.position.y), Normal(r.heading));
    && ball.y < WINDOW_HEIGHT
    && if d == 0.0 then c.mouthCos < -r.heading.x else d * d < WINDOW_REACH * ahead && c.mouthCos * d < ahead
  }

  function HeldBall(scene: Scene, s: State): V3
    requires s.holder.Some? ==> scene.Has(s.holder.value)
  {
    if s.holder.Some? then Mouth(scene.At(s.holder.value)) else s.ball.position
  }

  // --- the contest ------------------------------------------------------------------------------

  predicate KickerReady(s: State, k: Key) {
    k in s.readyAt ==> s.ball.nowMs >= s.readyAt[k]
  }

  predicate AsksKick(r: Bot) {
    r.kick.forward != 0.0 || r.kick.up != 0.0
  }

  predicate WantsKick(s: State, r: Bot, k: Key) {
    KickerReady(s, k) && AsksKick(r)
  }

  predicate Eligible(c: Config, s: State, r: Bot, ball: V3, k: Key) {
    && Window(c, r, ball) && k !in s.kicked
    && (WantsKick(s, r, k) || (r.spinner > 0.0 && k !in s.bounced))
  }

  function Effective(c: Config, s: State, r: Bot, ball: V3, k: Key): real {
    if s.holder == Some(k) then Distance(c, r, ball) - TAKEOVER_MARGIN else Distance(c, r, ball)
  }

  datatype Candidate = Candidate(key: Key, kick: bool, distance: real)

  function Bid(c: Config, s: State, r: Bot, ball: V3, k: Key): Candidate {
    Candidate(k, WantsKick(s, r, k), Effective(c, s, r, ball, k))
  }

  predicate Beats(a: Candidate, b: Candidate) {
    (a.kick && !b.kick) || (a.kick == b.kick && a.distance < b.distance)
  }

  function Leader(best: Option<Candidate>, bid: Candidate): Option<Candidate> {
    if best.None? || Beats(bid, best.value) then Some(bid) else best
  }

  function Contest(c: Config, scene: Scene, s: State, ball: V3, keys: seq<Key>): Option<Candidate>
    requires forall i :: 0 <= i < |keys| ==> scene.Has(keys[i])
  {
    if keys == [] then None
    else
      var k := keys[|keys| - 1];
      var best := Contest(c, scene, s, ball, keys[..|keys| - 1]);
      if Eligible(c, s, scene.At(k), ball, k) then Leader(best, Bid(c, s, scene.At(k), ball, k)) else best
  }

  /** The holder loses the ball: it lies free in the holder's mouth. */
  function Steal(s: State, ball: V3): State
    requires s.holder.Some?
  {
    s.(deployed := s.deployed - {s.holder.value}, holds := s.holds - {s.holder.value},
       request := Some(Reset(ball, ORIGIN)), ball := s.ball.(position := ball), holder := None)
  }

  function Resolve(c: Config, scene: Scene, s: State): State
    requires s.holder.Some? ==> scene.Has(s.holder.value)
  {
    var ball := HeldBall(scene, s);
    var best := Contest(c, scene, s, ball, scene.Keys());
    var t := s.(winner := if best.Some? then Some(best.value.key) else None);
    if t.holder.Some? && t.winner.Some? && t.winner != t.holder then Steal(t, ball) else t
  }

  // --- one robot's turn ---------------------------------------------------------------------------

  function Release(s: State, r: Bot, k: Key): State {
    if s.holder != Some(k) then s
    else
      s.(holder := None, deployed := s.deployed - {k},
         request := if Parked(s.body) then Some(Reset(Mouth(r), V3(r.moved.x, 0.0, r.moved.y))) else s.request)
  }

  function Dribble(s: State, k: Key): State {
    s.(holder := Some(k), request := Some(Reset(PARK, ORIGIN)), deployed := s.deployed + {k})
  }

  function AfterKick(s: State, r: Bot, k: Key, launch: V3): State {
    s.(holds := s.holds - {k}, deployed := s.deployed - {k}, holder := None, pendingKick := Some(launch),
       request := if Parked(s.body) then Some(Reset(Mouth(r), ORIGIN)) else s.request)
  }

  function FloorOf(p: V3): V2 {
    V2(p.x, p.z)
  }

  function RelativeSpeed(c: Config, s: State, r: Bot, velocity: V3): real {
    var v := Minus(Floor(velocity), BodyPoint(r, FloorOf(s.ball.position)));
    c.hyp(v.x, v.y)
  }

  predicate Catchable(c: Config, s: State, r: Bot, k: Key) {
    || Max(RelativeSpeed(c, s, r, s.ball.velocity), RelativeSpeed(c, s, r, s.ball.before)) < c.catchMax
    || s.holder == Some(k)
  }

  function MaxDrop(c: Config, s: State): real {
    Max(c.slideDecel, c.rollDecel) * s.ball.timestepMs * 0.001 * 1.5 + 20.0
  }

  function Launch(c: Config, s: State, r: Bot, k: Key): V3 {
    DirectKick(c.plate, r, FloorOf(s.ball.position), s.holder == Some(k), s.ball.velocity, s.ball.recent, MaxDrop(c, s),
               ScaleKick(c.kickerFriction, r.kick))
  }

  predicate Unlocks(s: State, r: Bot, k: Key) {
    && k in s.kicked
    && CanRecover(s.ball.nowMs - s.kicked[k],
                  NormalSpeed(Plate(BodyPoint(r, FloorOf(s.ball.position)), Normal(r.heading)), s.ball.velocity),
                  s.pendingKick.Some?)
  }

  predicate LetsGo(r: Bot) {
    !(r.spinner > 0.0) && !AsksKick(r)
  }

  /** Before it looks at its mouth, a robot may let go of the ball and have its kick lock lifted. */
  function Settle(s: State, r: Bot, k: Key): State {
    var t := if LetsGo(r) then Release(s, r, k) else s;
    if Unlocks(t, r, k) then t.(kicked := t.kicked - {k}) else t
  }

  /** The holder's own window is forced open: the ball sits 95 mm straight ahead of it. */
  predicate InMouth(c: Config, t: State, r: Bot, k: Key) {
    if t.holder == Some(k) then t.ball.position.y < WINDOW_HEIGHT else Window(c, r, t.ball.position)
  }

  predicate Blocked(t: State, k: Key) {
    (t.winner.Some? && t.winner != Some(k)) || (t.holder.Some? && t.holder != Some(k))
  }

  predicate Fires(t: State, r: Bot, k: Key) {
    k !in t.kicked && KickerReady(t, k) && AsksKick(r)
  }

  predicate Catches(t: State, r: Bot, k: Key) {
    k !in t.kicked && !(KickerReady(t, k) && AsksKick(r)) && r.spinner > 0.0 && k !in t.bounced
  }

  /** The mouth sensor reads a ball; one that came too fast is marked as bounced. */
  function Sense(c: Config, t: State, r: Bot, k: Key): State {
    t.(holds := t.holds + {k}, bounced := if Catchable(c, t, r, k) then t.bounced else t.bounced + {k})
  }

  function Fire(c: Config, t: State, r: Bot, k: Key): State {
    AfterKick(t.(readyAt := t.readyAt[k := t.ball.nowMs + c.rechargeSec * 1000.0], kicked := t.kicked[k := t.ball.nowMs]),
         r, k, Launch(c, t, r, k))
  }

  function Leave(t: State, k: Key): State {
    t.(kicked := t.kicked - {k}, bounced := t.bounced - {k}, deployed := t.deployed - {k}, holds := t.holds - {k})
  }

  function Turn(c: Config, s: State, r: Bot, k: Key): (v: State)
    ensures v.holder == None || v.holder == s.holder || v.holder == Some(k)
  {
    hide Window, Catchable, InMouth, Launch, Mouth, Parked, Unlocks;
    var t := Settle(s, r, k);
    if !InMouth(c, t, r, k) then Leave(t, k)
    else if Blocked(t, k) then t.(holds := t.holds - {k})
    else
      var u := Sense(c, t, r, k);
      if Fires(u, r, k) then Fire(c, u, r, k)
      else if Catches(u, r, k) then Dribble(u, k)
      else u
  }

  function Turns(c: Config, scene: Scene, s: State, keys: seq<Key>): (v: State)
    requires forall i :: 0 <= i < |keys| ==> scene.Has(keys[i])
    ensures (s.holder.Some? ==> scene.Has(s.holder.value)) ==> (v.holder.Some? ==> scene.Has(v.holder.value))
  {
    hide Turn;
    if keys == [] then s
    else
      var k := keys[|keys| - 1];
      Turn(c, Turns(c, scene, s, keys[..|keys| - 1]), scene.At(k), k)
  }

  // --- the frame ------------------------------------------------------------------------------------

  function Difference(p: V3, q: V3, dt: real): V3
    requires dt != 0.0
  {
    V3((p.x - q.x) / dt, (p.y - q.y) / dt, (p.z - q.z) / dt)
  }

  function Newest(v: V3, recent: seq<V3>): seq<V3> {
    var all := [v] + recent;
    if |all| <= HISTORY then all else all[..HISTORY]
  }

  function MetresPerSecond(v: V3): V3 {
    V3(v.x / 1000.0, v.y / 1000.0, v.z / 1000.0)
  }

  /** The ball's position of this frame, if it is determined yet. */
  function Current(scene: Scene, s: State): Option<V3>
    requires s.holder.Some? ==> scene.Has(s.holder.value)
  {
    if s.holder.Some? then Some(HeldBall(scene, s)) else if OnField(s.body) then Some(s.body) else None
  }

  predicate Landed(c: Config, place: Placement, p: V3, now: real) {
    || c.hyp(p.x - place.position.x, p.z - place.position.z) <= 5.0 + c.hyp(place.velocity.x, place.velocity.z) * 0.05
    || now - place.requestedMs >= LANDING_TIMEOUT
  }

  /** Measures the ball; the flag says whether this frame determined its state. */
  function Refresh(c: Config, b: Tracked, current: Option<V3>, timestep: real): (Tracked, bool) {
    var t := b.(nowMs := b.nowMs + timestep, timestepMs := timestep);
    if current.None? || (t.placement.Some? && !Landed(c, t.placement.value, current.value, t.nowMs)) then (t, false)
    else (Measured(t, current.value), true)
  }

  function Measured(t: Tracked, p: V3): Tracked {
    var sampled := t.(position := p, prevSample := Some(Sample(p, t.nowMs)));
    if t.placement.Some? then
      var v := MetresPerSecond(t.placement.value.velocity);
      sampled.(velocity := v, before := v, placement := None, recent := [v])
    else if t.prevSample.Some? && t.nowMs > t.prevSample.value.timeMs then
      var v := Difference(p, t.prevSample.value.position, t.nowMs - t.prevSample.value.timeMs);
      sampled.(velocity := v, before := t.velocity, recent := Newest(v, t.recent))
    else
      sampled
  }

  predicate Launches(s: State) {
    s.pendingKick.Some? && OnField(s.body)
  }

  /** A deferred kick is given to the body once it is back on the field. */
  function Deliver(s: State): State {
    if Launches(s) then s.(pendingKick := None) else s
  }

  /** The state in which the contest starts. */
  function Prepared(c: Config, scene: Scene, s: State, timestep: real): State
    requires s.holder.Some? ==> scene.Has(s.holder.value)
  {
    Deliver(s.(ball := Refresh(c, s.ball, Current(scene, s), timestep).0))
  }

  function Update(c: Config, scene: Scene, s: State, timestep: real): (v: State)
    requires s.holder.Some? ==> scene.Has(s.holder.value)
    ensures v.holder.Some? ==> scene.Has(v.holder.value)
  {
    Turns(c, scene, Resolve(c, scene, Prepared(c, scene, s, timestep)), scene.Keys())
  }

  /** What is sent out as the ball's position. */
  function Publish(scene: Scene, s: State): State
    requires s.holder.Some? ==> scene.Has(s.holder.value)
  {
    if s.holder.None? then if OnField(s.body) then s.(ball := s.ball.(position := s.body)) else s
    else s.(ball := s.ball.(position := Mouth(scene.At(s.holder.value))))
  }

  /** Physics serves the request and moves the ball to `body`. */
  function Stepped(s: State, body: V3): State {
    s.(body := body, request := None)
  }

  /** The ball is about to be teleported: nothing measured so far counts any more. */
  function Awaiting(b: Tracked, body: V3, position: V3, velocity: V3): Tracked {
    b.(velocity := ORIGIN, position := body, prevSample := None, recent := [],
       placement := Some(Placement(position, velocity, b.nowMs)))
  }

  function TeamSet(isYellow: bool, n: nat): set<Key> {
    set i | 0 <= i < n :: Key(isYellow, i)
  }

  /** A placement, for `nb` blue and `ny` yellow robots. */
  function Place(s: State, position: V3, velocity: Option<V3>, nb: nat, ny: nat): State {
    var all := TeamSet(false, nb) + TeamSet(true, ny);
    s.(pendingKick := None, request := Some(Reset(position, ORIGIN)),
       ball := Awaiting(s.ball, s.body, position, if velocity.Some? then velocity.value else ORIGIN),
       kicked := map[], bounced := {}, holder := None, deployed := s.deployed - all, holds := s.holds - all)
  }
}
