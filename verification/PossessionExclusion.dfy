/** At most one robot of both teams kicks or catches the ball in a frame. */
module PossessionExclusion {
  import opened Options
  import opened RealMath
  import opened BallContact
  import opened KickLimits
  import opened Rebound
  import opened Possession
  import opened PossessionInvariant
  import opened PossessionContest

  /** In its turn the robot kicks the ball, or takes or keeps it with its dribbler. */
  predicate Acts(c: Config, s: State, r: Bot, k: Key) {
    var t := Settle(s, r, k);
    InMouth(c, t, r, k) && !Blocked(t, k) && (Fires(t, r, k) || Catches(Sense(c, t, r, k), r, k))
  }

  function Actors(c: Config, scene: Scene, s: State, keys: seq<Key>): seq<Key>
    requires AllIn(scene, keys)
  {
    if keys == [] then []
    else
      var k := keys[|keys| - 1];
      var init := keys[..|keys| - 1];
      var t := Turns(c, scene, s, init);
      Actors(c, scene, s, init) + if Acts(c, t, scene.At(k), k) then [k] else []
  }

  // --- one turn -----------------------------------------------------------------------------------------

  /** The entries of a robot: its lock, recharge, bounce mark and sensor. */
  ghost predicate SameEntries(s: State, v: State, k: Key) {
    && (k in v.kicked <==> k in s.kicked) && (k in s.kicked ==> v.kicked[k] == s.kicked[k])
    && (k in v.readyAt <==> k in s.readyAt) && (k in s.readyAt ==> v.readyAt[k] == s.readyAt[k])
    && (k in v.bounced <==> k in s.bounced) && (k in v.holds <==> k in s.holds)
  }

  ghost predicate OwnOnly(s: State, v: State, k: Key) {
    && v.winner == s.winner && v.ball == s.ball && v.body == s.body
    && forall other: Key :: other != k ==> SameEntries(s, v, other)
  }

  lemma OwnOnlyTrans(s: State, t: State, v: State, k: Key)
    requires OwnOnly(s, t, k) && OwnOnly(t, v, k)
    ensures OwnOnly(s, v, k)
  {
    forall other: Key | other != k ensures SameEntries(s, v, other) {
      assert SameEntries(s, t, other) && SameEntries(t, v, other);
    }
  }

  lemma SettleOwn(s: State, r: Bot, k: Key)
    ensures OwnOnly(s, Settle(s, r, k), k)
  {
    hide Mouth, NormalSpeed, BodyPoint, CanRecover, Parked, AsksKick;
  }

  lemma LeaveOwn(t: State, k: Key)
    ensures OwnOnly(t, Leave(t, k), k)
  {
  }

  lemma SenseOwn(c: Config, t: State, r: Bot, k: Key)
    ensures OwnOnly(t, Sense(c, t, r, k), k)
  {
    hide RelativeSpeed;
  }

  lemma FireOwn(c: Config, u: State, r: Bot, k: Key)
    ensures OwnOnly(u, Fire(c, u, r, k), k)
  {
    hide Launch, Mouth, Parked;
  }

  /** A turn touches the ball's measurement, the winner and the body not at all, and no entry of
      another robot. */
  lemma TurnOwn(c: Config, s: State, r: Bot, k: Key)
    ensures OwnOnly(s, Turn(c, s, r, k), k)
  {
    var t := Settle(s, r, k);
    var u := Sense(c, t, r, k);
    SettleOwn(s, r, k);
    SenseOwn(c, t, r, k);
    LeaveOwn(t, k);
    FireOwn(c, u, r, k);
    BranchesOwn(c, t, r, k);
    hide OwnOnly, Settle, InMouth, Blocked, Sense, Leave, Fire, Fires, Catches, Dribble;
    OwnOnlyTrans(s, t, u, k);
    if !InMouth(c, t, r, k) {
      OwnOnlyTrans(s, t, Leave(t, k), k);
    } else if Blocked(t, k) {
      OwnOnlyTrans(s, t, t.(holds := t.holds - {k}), k);
    } else if Fires(u, r, k) {
      OwnOnlyTrans(s, u, Fire(c, u, r, k), k);
    } else if Catches(u, r, k) {
      OwnOnlyTrans(s, u, Dribble(u, k), k);
    }
  }

  lemma BranchesOwn(c: Config, t: State, r: Bot, k: Key)
    ensures OwnOnly(t, t.(holds := t.holds - {k}), k)
    ensures OwnOnly(Sense(c, t, r, k), Dribble(Sense(c, t, r, k), k), k)
  {
    hide RelativeSpeed;
  }

  /** Without acting a robot neither launches the ball nor takes it; it can at most let go of it. */
  lemma TurnIdle(c: Config, s: State, r: Bot, k: Key)
    requires !Acts(c, s, r, k)
    ensures var v := Turn(c, s, r, k);
            v.pendingKick == s.pendingKick && (v.holder == s.holder || (s.holder == Some(k) && v.holder.None?))
  {
    SettleHolder(s, r, k);
    hide Settle, Fire, Dribble, Catchable, Window, Launch, RelativeSpeed, Mouth, NormalSpeed, BodyPoint, CanRecover, Parked;
  }

  lemma SettleHolder(s: State, r: Bot, k: Key)
    ensures var t := Settle(s, r, k);
            t.pendingKick == s.pendingKick && (t.holder == s.holder || (s.holder == Some(k) && t.holder.None?))
  {
    hide Mouth, NormalSpeed, BodyPoint, CanRecover, Parked, AsksKick;
  }

  lemma TurnActs(c: Config, s: State, r: Bot, k: Key)
    requires Acts(c, s, r, k)
    ensures var v := Turn(c, s, r, k);
            || (v.pendingKick.Some? && v.holder.None?)
            || (v.pendingKick == s.pendingKick && v.holder == Some(k))
  {
    hide Window, Launch, RelativeSpeed, Mouth, NormalSpeed, BodyPoint, CanRecover, Parked;
  }

  lemma OthersWait(c: Config, s: State, r: Bot, k: Key)
    requires (s.winner.Some? && s.winner != Some(k)) || (s.holder.Some? && s.holder != Some(k))
    ensures !Acts(c, s, r, k)
  {
    hide Window, Mouth, NormalSpeed, BodyPoint, CanRecover, Parked;
  }

  /** A robot that may not act for the ball in its sight can only act once its kick lock is lifted,
      which a kick still waiting for the body forbids. */
  lemma OnlyByUnlocking(c: Config, s: State, r: Bot, k: Key)
    requires !Eligible(c, s, r, s.ball.position, k) && Acts(c, s, r, k)
    requires s.holder == Some(k) ==> Window(c, r, s.ball.position)
    ensures s.pendingKick.None? && k in s.kicked
  {
    hide Window, Mouth, NormalSpeed, BodyPoint, Parked, RelativeSpeed;
  }

  // --- all turns ------------------------------------------------------------------------------------------

  /** After n turns, in which `actors` acted; `waiting` says that a kick waited from the start. */
  ghost predicate Exclusive(c: Config, scene: Scene, s: State, keys: seq<Key>, n: nat, actors: seq<Key>, waiting: bool)
    requires AllIn(scene, keys) && n <= |keys|
  {
    && |actors| <= 1 && (actors != [] ==> Mentions(keys[..n], actors[0]))
    && (s.pendingKick.Some? ==> waiting || (actors != [] && s.holder.None?))
    && (if s.winner.Some? then
          && (s.holder.Some? ==> s.holder == s.winner)
          && (actors != [] ==> s.winner == Some(actors[0]))
        else
          && (actors != [] ==> s.pendingKick.Some? || (s.holder.Some? && Mentions(keys[..n], s.holder.value)))
          && (forall i :: n <= i < |keys| ==> !May(c, scene, s, s.ball.position, keys[i]))
          && (forall i :: n <= i < |keys| && s.holder == Some(keys[i]) ==> Window(c, scene.At(keys[i]), s.ball.position)))
  }

  lemma MayIsOwn(c: Config, scene: Scene, s: State, v: State, k: Key)
    requires scene.Has(k) && v.ball == s.ball && (k in v.kicked <==> k in s.kicked)
    requires (k in v.readyAt <==> k in s.readyAt) && (k in s.readyAt ==> v.readyAt[k] == s.readyAt[k]) && (k in v.bounced <==> k in s.bounced)
    ensures May(c, scene, v, v.ball.position, k) == May(c, scene, s, s.ball.position, k)
  {
    hide Window;
  }

  lemma MentionsMore(keys: seq<Key>, n: nat, k: Key)
    requires n < |keys|
    ensures Mentions(keys[..n + 1], keys[n])
    ensures Mentions(keys[..n], k) ==> Mentions(keys[..n + 1], k)
  {
    assert keys[..n + 1][n] == keys[n];
    if i :| 0 <= i < n && keys[..n][i] == k {
      assert keys[..n + 1][i] == k;
    }
  }

  lemma ExclusiveTurn(c: Config, scene: Scene, s: State, keys: seq<Key>, n: nat, actors: seq<Key>, waiting: bool)
    requires AllIn(scene, keys) && Distinct(keys) && n < |keys|
    requires Exclusive(c, scene, s, keys, n, actors, waiting)
    ensures var k := keys[n];
            Exclusive(c, scene, Turn(c, s, scene.At(k), k), keys, n + 1,
                      if Acts(c, s, scene.At(k), k) then actors + [k] else actors, waiting)
  {
    var k := keys[n];
    var r := scene.At(k);
    var v := Turn(c, s, r, k);
    hide Turn, Acts, Window, Settle;
    if Acts(c, s, r, k) {
      ActsAlone(c, scene, s, keys, n, actors, waiting);
      TurnActs(c, s, r, k);
    } else {
      TurnIdle(c, s, r, k);
    }
    TurnOwn(c, s, r, k);
    LaterMay(c, scene, s, v, keys, n);
    hide May;
    MentionsMore(keys, n, if actors != [] then actors[0] else k);
    MentionsMore(keys, n, if s.holder.Some? then s.holder.value else k);
  }

  lemma LaterMay(c: Config, scene: Scene, s: State, v: State, keys: seq<Key>, n: nat)
    requires AllIn(scene, keys) && Distinct(keys) && n < |keys| && OwnOnly(s, v, keys[n])
    ensures forall i :: n + 1 <= i < |keys| ==> May(c, scene, v, v.ball.position, keys[i]) == May(c, scene, s, s.ball.position, keys[i])
  {
    hide May, SameEntries;
    forall i | n + 1 <= i < |keys|
      ensures May(c, scene, v, v.ball.position, keys[i]) == May(c, scene, s, s.ball.position, keys[i])
    {
      assert keys[i] != keys[n];
      SameMay(c, scene, s, v, keys[i]);
    }
  }

  lemma SameMay(c: Config, scene: Scene, s: State, v: State, k: Key)
    requires scene.Has(k) && v.ball == s.ball && SameEntries(s, v, k)
    ensures May(c, scene, v, v.ball.position, k) == May(c, scene, s, s.ball.position, k)
  {
    MayIsOwn(c, scene, s, v, k);
  }

  /** The next robot acts only if nobody acted before. */
  lemma ActsAlone(c: Config, scene: Scene, s: State, keys: seq<Key>, n: nat, actors: seq<Key>, waiting: bool)
    requires AllIn(scene, keys) && Distinct(keys) && n < |keys|
    requires Exclusive(c, scene, s, keys, n, actors, waiting) && Acts(c, s, scene.At(keys[n]), keys[n])
    ensures actors == [] && (s.winner.Some? ==> s.winner == Some(keys[n]))
  {
    var k := keys[n];
    if (s.winner.Some? && s.winner != Some(k)) || (s.holder.Some? && s.holder != Some(k)) {
      OthersWait(c, s, scene.At(k), k);
    }
    hide Acts, Window;
    if s.winner.None? {
      assert !May(c, scene, s, s.ball.position, keys[n]);
      OnlyByUnlocking(c, s, scene.At(k), k);
    }
    NotBefore(keys, n);
  }

  lemma NotBefore(keys: seq<Key>, n: nat)
    requires Distinct(keys) && n < |keys|
    ensures !Mentions(keys[..n], keys[n])
  {
  }

  lemma {:induction false} ExclusiveTurns(c: Config, scene: Scene, s: State, keys: seq<Key>, n: nat, waiting: bool)
    requires AllIn(scene, keys) && Distinct(keys) && n <= |keys|
    requires Exclusive(c, scene, s, keys, 0, [], waiting)
    ensures Exclusive(c, scene, Turns(c, scene, s, keys[..n]), keys, n, Actors(c, scene, s, keys[..n]), waiting)
  {
    hide Exclusive, Turn, Acts;
    if n == 0 {
      assert keys[..0] == [];
    } else {
      ExclusiveTurns(c, scene, s, keys, n - 1, waiting);
      assert keys[..n][..n - 1] == keys[..n - 1] && keys[..n][n - 1] == keys[n - 1];
      var t := Turns(c, scene, s, keys[..n - 1]);
      var actors := Actors(c, scene, s, keys[..n - 1]);
      ExclusiveTurn(c, scene, t, keys, n - 1, actors, waiting);
      assert actors + [] == actors;
    }
  }

  // --- a frame ------------------------------------------------------------------------------------------

  ghost predicate RealRobots(c: Config, scene: Scene) {
    && IsHypot(c.hyp) && c.mouthCos < 1.0
    && forall k: Key :: scene.Has(k) ==> Dot(scene.At(k).heading, scene.At(k).heading) == 1.0
  }

  lemma ResolveExclusive(c: Config, scene: Scene, s: State)
    requires RealRobots(c, scene) && HolderPresent(scene, s)
    requires s.ball.position == HeldBall(scene, s) || Resolve(c, scene, s).winner.Some?
    ensures AllIn(scene, scene.Keys()) && Exclusive(c, scene, Resolve(c, scene, s), scene.Keys(), 0, [], s.pendingKick.Some?)
  {
    var keys := scene.Keys();
    KeysDistinct(scene);
    ContestOptimal(c, scene, s, HeldBall(scene, s), keys);
    if s.holder.Some? {
      MouthIsInWindow(c, scene.At(s.holder.value));
    }
    ResolveNobody(c, scene, s);
    hide Contest, Scene.Keys, Mouth, IsHypot, Dot, Window, May;
  }

  /** Without a winner nothing changes but the winner. */
  lemma ResolveNobody(c: Config, scene: Scene, s: State)
    requires HolderPresent(scene, s) && AllIn(scene, scene.Keys())
    ensures var v := Resolve(c, scene, s);
            && v.pendingKick == s.pendingKick && (v.winner.Some? && v.holder.Some? ==> v.holder == v.winner)
            && (v.winner.None? ==> v == s.(winner := None))
    ensures Resolve(c, scene, s).winner.None? ==>
              forall i :: 0 <= i < |scene.Keys()| ==>
                May(c, scene, Resolve(c, scene, s), s.ball.position, scene.Keys()[i]) == May(c, scene, s, s.ball.position, scene.Keys()[i])
  {
    hide Contest, Scene.Keys, Mouth, May;
    var v := Resolve(c, scene, s);
    if v.winner.None? {
      forall i | 0 <= i < |scene.Keys()|
        ensures May(c, scene, v, s.ball.position, scene.Keys()[i]) == May(c, scene, s, s.ball.position, scene.Keys()[i])
      {
        MayIsOwn(c, scene, s, v, scene.Keys()[i]);
      }
    }
  }

  /** Mutual exclusion. Whatever the contest decided, and however many kick locks could be lifted in
      the frame, at most one robot of both teams kicks or catches the ball; and unless an older kick
      still waits, a kick leaves nobody holding it. The ball must be seen where the contest sees it:
      no placement is outstanding, or nobody holds the ball. */
  lemma AtMostOneActs(c: Config, scene: Scene, s: State, timestep: real)
    requires RealRobots(c, scene) && HolderPresent(scene, s)
    requires var p := Prepared(c, scene, s, timestep);
             p.ball.placement.None? || p.holder.None?
    ensures AllIn(scene, scene.Keys())
    ensures var p := Prepared(c, scene, s, timestep);
            && |Actors(c, scene, Resolve(c, scene, p), scene.Keys())| <= 1
            && (p.pendingKick.None? && Update(c, scene, s, timestep).pendingKick.Some? ==>
                  Update(c, scene, s, timestep).holder.None? && Actors(c, scene, Resolve(c, scene, p), scene.Keys()) != [])
  {
    var p := Prepared(c, scene, s, timestep);
    var keys := scene.Keys();
    KeysDistinct(scene);
    PreparedKeeps(c, scene, s, timestep);
    hide Prepared, Resolve, Turns, Scene.Keys, RealRobots, OnField, Mouth, Actors;
    ResolveExclusive(c, scene, p);
    ExclusiveTurns(c, scene, Resolve(c, scene, p), keys, |keys|, p.pendingKick.Some?);
    assert keys[..|keys|] == keys;
  }
}
