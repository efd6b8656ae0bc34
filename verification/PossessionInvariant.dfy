/** What every step of the possession protocol keeps: the ball body is parked exactly while a robot
    holds the ball, and the holder's marker, sensor and locks agree with that. */
module PossessionInvariant {
  import opened Options
  import opened RealMath
  import opened BallContact
  import opened KickLimits
  import opened Rebound
  import opened Possession

  ghost predicate Mentions(done: seq<Key>, k: Key) {
    exists i :: 0 <= i < |done| && done[i] == k
  }

  /** Parked, or about to be, exactly while somebody holds the ball; on the field otherwise. */
  ghost predicate ParkedWhileHeld(s: State) {
    if s.holder.Some? then Parked(Target(s)) else OnField(Target(s))
  }

  /** Only the holder's mouth collider is out, its sensor reads the ball, and no lock binds it. */
  ghost predicate HolderAgrees(s: State) {
    && s.deployed == (if s.holder.Some? then {s.holder.value} else {})
    && (s.holder.Some? ==>
          && s.holder.value in s.holds && s.ball.position.y < WINDOW_HEIGHT
          && s.holder.value !in s.kicked && s.holder.value !in s.bounced)
  }

  /** A kick lock dates from the last kick, from which the kicker recharges. */
  ghost predicate LocksDated(c: Config, s: State) {
    forall k :: k in s.kicked ==> k in s.readyAt && s.readyAt[k] == s.kicked[k] + c.rechargeSec * 1000.0 && s.kicked[k] <= s.ball.nowMs
  }

  /** During a frame, with the robots `done` having had their turn: a holder whose ball still lies
      on the field caught it in this frame. */
  ghost predicate Midway(s: State, done: seq<Key>) {
    && (Parked(s.body) || OnField(s.body))
    && (s.holder.Some? && OnField(s.body) ==> Mentions(done, s.holder.value))
  }

  ghost predicate Sound(c: Config, s: State, done: seq<Key>) {
    ParkedWhileHeld(s) && HolderAgrees(s) && LocksDated(c, s) && Midway(s, done)
  }

  lemma Sides(p: V3)
    ensures !(OnField(p) && Parked(p))
  {
  }

  /** While the turns run, nobody but the contest winner, if there is one, holds the ball. */
  ghost predicate InTurn(c: Config, s: State, done: seq<Key>) {
    Sound(c, s, done) && (s.holder.Some? && s.winner.Some? ==> s.winner == s.holder)
  }

  // --- a turn ---------------------------------------------------------------------------------------

  lemma ReleaseSound(c: Config, s: State, r: Bot, k: Key, done: seq<Key>)
    requires InTurn(c, s, done) && !Mentions(done, k) && OnField(Mouth(r))
    ensures InTurn(c, Release(s, r, k), done)
  {
    hide OnField, Parked, Mouth;
  }

  lemma SettleSound(c: Config, s: State, r: Bot, k: Key, done: seq<Key>)
    requires InTurn(c, s, done) && !Mentions(done, k) && OnField(Mouth(r))
    ensures InTurn(c, Settle(s, r, k), done)
  {
    ReleaseSound(c, s, r, k, done);
    hide OnField, Parked, Mouth, Release, CanRecover, NormalSpeed, BodyPoint, Mentions, AsksKick;
  }

  lemma LeaveSound(c: Config, t: State, k: Key, done: seq<Key>)
    requires InTurn(c, t, done) && t.holder != Some(k)
    ensures InTurn(c, Leave(t, k), done)
  {
    hide OnField, Parked, Mentions;
  }

  lemma SenseSound(c: Config, t: State, r: Bot, k: Key, done: seq<Key>)
    requires InTurn(c, t, done)
    ensures InTurn(c, Sense(c, t, r, k), done)
  {
    hide OnField, Parked, Mentions, RelativeSpeed;
  }

  lemma FireSound(c: Config, u: State, r: Bot, k: Key, done: seq<Key>)
    requires InTurn(c, u, done) && !Blocked(u, k) && !Mentions(done, k) && OnField(Mouth(r))
    ensures InTurn(c, Fire(c, u, r, k), done)
  {
    hide OnField, Parked, Mouth, Launch;
  }

  lemma DribbleSound(c: Config, u: State, k: Key, done: seq<Key>)
    requires InTurn(c, u, done) && !Blocked(u, k) && k in u.holds && u.ball.position.y < WINDOW_HEIGHT
    requires k !in u.kicked && k !in u.bounced
    ensures InTurn(c, Dribble(u, k), done + [k])
  {
    hide OnField;
    assert (done + [k])[|done|] == k;
  }

  lemma MoreDone(c: Config, s: State, done: seq<Key>, k: Key)
    requires InTurn(c, s, done)
    ensures InTurn(c, s, done + [k])
  {
    hide ParkedWhileHeld, HolderAgrees, LocksDated, OnField, Parked;
    if i :| s.holder.Some? && 0 <= i < |done| && done[i] == s.holder.value {
      assert (done + [k])[i] == s.holder.value;
    }
  }

  lemma TurnSound(c: Config, s: State, r: Bot, k: Key, done: seq<Key>)
    requires InTurn(c, s, done) && !Mentions(done, k) && OnField(Mouth(r))
    ensures InTurn(c, Turn(c, s, r, k), done + [k])
  {
    var t := Settle(s, r, k);
    SettleSound(c, s, r, k, done);
    if !InMouth(c, t, r, k) {
      hide Settle, Window, Mouth, OnField, Parked, Mentions;
      LeaveSound(c, t, k, done);
      MoreDone(c, Leave(t, k), done, k);
    } else if Blocked(t, k) {
      hide Settle, Window, Mouth, OnField, Parked, Mentions;
      BlockedSound(c, t, k, done);
      MoreDone(c, t.(holds := t.holds - {k}), done, k);
    } else {
      SenseSound(c, t, r, k, done);
      ActSound(c, s, t, r, k, done);
    }
  }

  lemma BlockedSound(c: Config, t: State, k: Key, done: seq<Key>)
    requires InTurn(c, t, done) && Blocked(t, k)
    ensures InTurn(c, t.(holds := t.holds - {k}), done)
  {
    hide OnField, Parked, Mentions;
  }

  lemma ActSound(c: Config, s: State, t: State, r: Bot, k: Key, done: seq<Key>)
    requires t == Settle(s, r, k) && InMouth(c, t, r, k) && !Blocked(t, k)
    requires InTurn(c, Sense(c, t, r, k), done) && !Mentions(done, k) && OnField(Mouth(r))
    ensures InTurn(c, Turn(c, s, r, k), done + [k])
  {
    var u := Sense(c, t, r, k);
    LowBall(c, t, r, k);
    hide Settle, Window, Mouth, OnField, Parked, Mentions, InTurn, InMouth, RelativeSpeed, Fire, Dribble;
    if Fires(u, r, k) {
      FireSound(c, u, r, k, done);
      MoreDone(c, Fire(c, u, r, k), done, k);
    } else if Catches(u, r, k) {
      DribbleSound(c, u, k, done);
    } else {
      MoreDone(c, u, done, k);
    }
  }

  lemma LowBall(c: Config, t: State, r: Bot, k: Key)
    requires InMouth(c, t, r, k)
    ensures t.ball.position.y < WINDOW_HEIGHT
  {
    hide Distance, Dot;
  }

  // --- all turns --------------------------------------------------------------------------------------

  ghost predicate MouthsOnField(scene: Scene) {
    forall k: Key :: scene.Has(k) ==> OnField(Mouth(scene.At(k)))
  }

  ghost predicate Distinct(keys: seq<Key>) {
    forall i, j :: 0 <= i < j < |keys| ==> keys[i] != keys[j]
  }

  ghost predicate AllIn(scene: Scene, keys: seq<Key>) {
    forall i :: 0 <= i < |keys| ==> scene.Has(keys[i])
  }

  lemma KeysDistinct(scene: Scene)
    ensures Distinct(scene.Keys()) && AllIn(scene, scene.Keys())
    ensures forall k: Key :: scene.Has(k) ==> Mentions(scene.Keys(), k)
  {
    var keys := scene.Keys();
    forall k: Key | scene.Has(k) ensures Mentions(keys, k) {
      var i := if k.isYellow then |scene.blue| + k.id else k.id;
      assert keys[i] == k;
    }
  }

  lemma {:induction false} TurnsSound(c: Config, scene: Scene, s: State, keys: seq<Key>)
    requires InTurn(c, s, []) && MouthsOnField(scene) && Distinct(keys) && AllIn(scene, keys)
    ensures InTurn(c, Turns(c, scene, s, keys), keys)
  {
    hide InTurn, Turn, OnField, Mouth;
    if keys != [] {
      var n := |keys| - 1;
      var k := keys[n];
      TurnsSound(c, scene, s, keys[..n]);
      NotYet(keys);
      assert keys[..n] + [k] == keys;
      TurnSound(c, Turns(c, scene, s, keys[..n]), scene.At(k), k, keys[..n]);
    }
  }

  lemma NotYet(keys: seq<Key>)
    requires Distinct(keys) && keys != []
    ensures !Mentions(keys[..|keys| - 1], keys[|keys| - 1])
  {
  }

  // --- the rest of a frame ----------------------------------------------------------------------------

  ghost predicate HolderPresent(scene: Scene, s: State) {
    s.holder.Some? ==> scene.Has(s.holder.value)
  }

  lemma ResolveSound(c: Config, scene: Scene, s: State)
    requires Sound(c, s, []) && HolderPresent(scene, s) && MouthsOnField(scene)
    ensures InTurn(c, Resolve(c, scene, s), [])
  {
    hide Contest, OnField, Parked, Mouth;
  }

  lemma RefreshKeeps(c: Config, b: Tracked, current: Option<V3>, timestep: real)
    ensures var u := Refresh(c, b, current, timestep).0;
            && u.nowMs == b.nowMs + timestep
            && (u.position == b.position || current == Some(u.position))
            && (u.placement.None? && current.Some? ==> current == Some(u.position))
  {
    hide Difference, Newest, MetresPerSecond, Landed;
  }

  /** Measuring the ball and delivering a kick leave everything about possession alone; a held ball
      is measured in the mouth, a free one where it is, unless a placement is still awaited. */
  lemma PreparedKeeps(c: Config, scene: Scene, s: State, timestep: real)
    requires HolderPresent(scene, s)
    ensures var u := Prepared(c, scene, s, timestep);
            && u == s.(ball := u.ball, pendingKick := if Launches(s) then None else s.pendingKick)
            && u.ball.nowMs == s.ball.nowMs + timestep
            && (u.ball.position == s.ball.position || Current(scene, s) == Some(u.ball.position))
            && (u.ball.placement.None? && Current(scene, s).Some? ==> Current(scene, s) == Some(u.ball.position))
  {
    RefreshKeeps(c, s.ball, Current(scene, s), timestep);
    hide Refresh, Current, OnField;
  }

  lemma PreparedSound(c: Config, scene: Scene, s: State, timestep: real)
    requires Sound(c, s, []) && HolderPresent(scene, s) && 0.0 <= timestep
    ensures Sound(c, Prepared(c, scene, s, timestep), [])
  {
    PreparedKeeps(c, scene, s, timestep);
    hide Prepared, OnField, Parked;
  }

  lemma UpdateSound(c: Config, scene: Scene, s: State, timestep: real)
    requires Sound(c, s, []) && HolderPresent(scene, s) && MouthsOnField(scene) && 0.0 <= timestep
    ensures InTurn(c, Update(c, scene, s, timestep), scene.Keys())
  {
    PreparedSound(c, scene, s, timestep);
    hide Sound, InTurn, Prepared, Resolve, Turns, MouthsOnField;
    ResolveSound(c, scene, Prepared(c, scene, s, timestep));
    KeysDistinct(scene);
    TurnsSound(c, scene, Resolve(c, scene, Prepared(c, scene, s, timestep)), scene.Keys());
  }
}
