/** Kicks over whole runs: at most one robot acts per frame, every kick reaches a free ball in the next
    frame, a robot's kicks are a recharge apart, and a kick locks the robot out of its own ball. */
module PossessionKicks {
  import opened Options
  import opened RealMath
  import opened BallContact
  import opened KickLimits
  import opened Rebound
  import opened Possession
  import opened PossessionInvariant
  import opened PossessionContest
  import opened PossessionExclusion
  import opened PossessionRuns

  // --- one robot's turn inside a frame ------------------------------------------------------------------

  /** The state in which robot k gets its turn. */
  ghost function AtTurn(c: Config, scene: Scene, s: State, timestep: real, k: Key): State
    requires HolderPresent(scene, s) && scene.Has(k)
  {
    OrderIs(scene, k);
    Turns(c, scene, Resolve(c, scene, Prepared(c, scene, s, timestep)), scene.Keys()[..Order(scene, k)])
  }

  predicate FiresNow(c: Config, s: State, r: Bot, k: Key) {
    var t := Settle(s, r, k);
    InMouth(c, t, r, k) && !Blocked(t, k) && Fires(t, r, k)
  }

  /** At its turn the robot's mouth is empty, or its kick lock is lifted. */
  predicate Frees(c: Config, s: State, r: Bot, k: Key) {
    || !InMouth(c, Settle(s, r, k), r, k)
    || Unlocks(if LetsGo(r) then Release(s, r, k) else s, r, k)
  }

  lemma FiringTurn(c: Config, s: State, r: Bot, k: Key)
    requires FiresNow(c, s, r, k)
    ensures var v := Turn(c, s, r, k);
            && k in v.readyAt && v.readyAt[k] == s.ball.nowMs + c.rechargeSec * 1000.0
            && k in v.kicked && v.kicked[k] == s.ball.nowMs
            && (k in s.readyAt ==> s.readyAt[k] <= s.ball.nowMs)
  {
    hide Window, Launch, RelativeSpeed, Mouth, NormalSpeed, BodyPoint, CanRecover, Parked;
  }

  lemma OtherTurn(c: Config, s: State, r: Bot, k: Key)
    requires !FiresNow(c, s, r, k)
    ensures Turn(c, s, r, k).readyAt == s.readyAt
  {
    SettleReady(s, r, k);
    SenseFires(c, Settle(s, r, k), r, k);
    hide Settle, InMouth, Blocked, Fires, Catches, Sense, Window, Launch, Mouth, Parked;
  }

  lemma SettleReady(s: State, r: Bot, k: Key)
    ensures Settle(s, r, k).readyAt == s.readyAt
  {
    hide Mouth, Parked, Unlocks, LetsGo;
  }

  lemma SenseFires(c: Config, t: State, r: Bot, k: Key)
    ensures Fires(Sense(c, t, r, k), r, k) == Fires(t, r, k) && Sense(c, t, r, k).readyAt == t.readyAt
  {
    hide Catchable, AsksKick;
  }

  lemma LockedTurn(c: Config, s: State, r: Bot, k: Key)
    requires k in s.kicked && !Frees(c, s, r, k)
    ensures !Acts(c, s, r, k)
    ensures var v := Turn(c, s, r, k); k in v.kicked && v.kicked[k] == s.kicked[k]
  {
    hide Window, Launch, RelativeSpeed, Mouth, NormalSpeed, BodyPoint, CanRecover, Parked;
  }

  lemma {:induction false} OthersTurns(c: Config, scene: Scene, s: State, keys: seq<Key>, k: Key)
    requires AllIn(scene, keys) && !Mentions(keys, k)
    ensures SameEntries(s, Turns(c, scene, s, keys), k)
  {
    hide Turn;
    if keys != [] {
      var n := |keys| - 1;
      assert forall i :: 0 <= i < n ==> keys[..n][i] == keys[i];
      OthersTurns(c, scene, s, keys[..n], k);
      TurnOwn(c, Turns(c, scene, s, keys[..n]), scene.At(keys[n]), keys[n]);
      assert keys[n] != k;
      assert SameEntries(Turns(c, scene, s, keys[..n]), Turns(c, scene, s, keys), k);
    }
  }

  /** Turns after robot k's own leave its entries alone. */
  lemma {:induction false} LaterTurns(c: Config, scene: Scene, s: State, keys: seq<Key>, i: nat)
    requires AllIn(scene, keys) && Distinct(keys) && i < |keys|
    ensures var t := Turns(c, scene, s, keys[..i]);
            SameEntries(Turn(c, t, scene.At(keys[i]), keys[i]), Turns(c, scene, s, keys), keys[i])
    decreases |keys|
  {
    hide Turn, SameEntries;
    var n := |keys| - 1;
    var k := keys[i];
    if i < n {
      assert keys[..n][..i] == keys[..i] && keys[..n][i] == k;
      LaterTurns(c, scene, s, keys[..n], i);
      TurnOwn(c, Turns(c, scene, s, keys[..n]), scene.At(keys[n]), keys[n]);
      EntriesTrans(Turn(c, Turns(c, scene, s, keys[..i]), scene.At(k), k), Turns(c, scene, s, keys[..n]), Turns(c, scene, s, keys), k);
    } else {
      EntriesRefl(Turns(c, scene, s, keys), k);
    }
  }

  lemma EntriesTrans(s: State, t: State, v: State, k: Key)
    requires SameEntries(s, t, k) && SameEntries(t, v, k)
    ensures SameEntries(s, v, k)
  {
  }

  lemma EntriesRefl(s: State, k: Key)
    ensures SameEntries(s, s, k)
  {
  }

  /** After the whole frame the robot's entries are as its own turn left them, and up to its turn as
      the frame found them. */
  lemma FrameEntries(c: Config, scene: Scene, s: State, timestep: real, k: Key)
    requires HolderPresent(scene, s) && scene.Has(k)
    ensures var t := AtTurn(c, scene, s, timestep, k);
            && SameEntries(Resolve(c, scene, Prepared(c, scene, s, timestep)), t, k)
            && SameEntries(Turn(c, t, scene.At(k), k), Update(c, scene, s, timestep), k)
            && t.ball.nowMs == s.ball.nowMs + timestep && Update(c, scene, s, timestep).ball.nowMs == s.ball.nowMs + timestep
  {
    PreparedKeeps(c, scene, s, timestep);
    KeysDistinct(scene);
    OrderIs(scene, k);
    ResolveClock(c, scene, Prepared(c, scene, s, timestep));
    hide Prepared, Resolve, Turn, Turns, Scene.Keys, Order, SameEntries;
    TurnEntries(c, scene, Resolve(c, scene, Prepared(c, scene, s, timestep)), scene.Keys(), Order(scene, k));
  }

  lemma TurnEntries(c: Config, scene: Scene, q: State, keys: seq<Key>, i: nat)
    requires AllIn(scene, keys) && Distinct(keys) && i < |keys|
    ensures var t := Turns(c, scene, q, keys[..i]);
            && SameEntries(q, t, keys[i])
            && SameEntries(Turn(c, t, scene.At(keys[i]), keys[i]), Turns(c, scene, q, keys), keys[i])
            && t.ball == q.ball && Turns(c, scene, q, keys).ball == q.ball
  {
    hide Turn, Turns, SameEntries;
    NotBefore(keys, i);
    OthersTurns(c, scene, q, keys[..i], keys[i]);
    LaterTurns(c, scene, q, keys, i);
    TurnsOwn(c, scene, q, keys[..i]);
    TurnsOwn(c, scene, q, keys);
  }

  lemma ResolveClock(c: Config, scene: Scene, s: State)
    requires HolderPresent(scene, s)
    ensures var v := Resolve(c, scene, s);
            v.ball.nowMs == s.ball.nowMs && v.readyAt == s.readyAt && v.kicked == s.kicked && v.bounced == s.bounced
  {
    hide Contest, Mouth;
  }

  // --- recharge -----------------------------------------------------------------------------------------

  ghost predicate FiresIn(c: Config, scene: Scene, s: State, timestep: real, k: Key)
    requires HolderPresent(scene, s)
  {
    scene.Has(k) && FiresNow(c, AtTurn(c, scene, s, timestep, k), scene.At(k), k)
  }

  /** A robot that kicks was recharged, and its recharge starts again from this frame's clock;
      otherwise its recharge is not touched. */
  lemma FrameRecharge(c: Config, scene: Scene, s: State, timestep: real, k: Key)
    requires HolderPresent(scene, s)
    ensures var v := Update(c, scene, s, timestep);
            && v.ball.nowMs == s.ball.nowMs + timestep
            && (if FiresIn(c, scene, s, timestep, k) then
                  && k in v.readyAt && v.readyAt[k] == v.ball.nowMs + c.rechargeSec * 1000.0
                  && (k in s.readyAt ==> s.readyAt[k] <= v.ball.nowMs)
                else
                  (k in v.readyAt <==> k in s.readyAt) && (k in s.readyAt ==> v.readyAt[k] == s.readyAt[k]))
  {
    PreparedKeeps(c, scene, s, timestep);
    ResolveClock(c, scene, Prepared(c, scene, s, timestep));
    hide Prepared, Resolve, Turn, Turns, Update, Scene.Keys, FiresNow, AtTurn;
    if scene.Has(k) {
      FrameEntries(c, scene, s, timestep, k);
      var t := AtTurn(c, scene, s, timestep, k);
      if FiresNow(c, t, scene.At(k), k) {
        FiringTurn(c, t, scene.At(k), k);
      } else {
        OtherTurn(c, t, scene.At(k), k);
      }
    } else {
      AbsentEntries(c, scene, s, timestep, k);
    }
  }

  lemma AbsentEntries(c: Config, scene: Scene, s: State, timestep: real, k: Key)
    requires HolderPresent(scene, s) && !scene.Has(k)
    ensures var v := Update(c, scene, s, timestep);
            v.ball.nowMs == s.ball.nowMs + timestep && SameEntries(Resolve(c, scene, Prepared(c, scene, s, timestep)), v, k)
  {
    var q := Resolve(c, scene, Prepared(c, scene, s, timestep));
    PreparedKeeps(c, scene, s, timestep);
    ResolveClock(c, scene, Prepared(c, scene, s, timestep));
    KeysDistinct(scene);
    hide Prepared, Resolve, Turn, Turns, Scene.Keys, SameEntries;
    TurnsOwn(c, scene, q, scene.Keys());
    OthersTurns(c, scene, q, scene.Keys(), k);
  }

  ghost predicate FiresAt(c: Config, teams: Teams, s: State, e: Event, k: Key)
    requires HolderFits(teams, s) && EventFits(teams, e)
  {
    e.Frame? && FiresIn(c, e.scene, Stepped(s, e.body), e.timestep, k)
  }

  /** Clock times of those of the first n events in which robot k kicked. */
  ghost function FireTimes(c: Config, teams: Teams, s: State, events: seq<Event>, n: nat, k: Key): seq<real>
    requires HolderFits(teams, s) && AllFit(teams, events) && n <= |events|
  {
    if n == 0 then []
    else
      FireTimes(c, teams, s, events, n - 1, k)
      + if FiresAt(c, teams, Run(c, teams, s, events, n - 1), events[n - 1], k) then [Run(c, teams, s, events, n).ball.nowMs] else []
  }

  ghost predicate Spaced(times: seq<real>, gap: real) {
    forall i, j :: 0 <= i < j < |times| ==> gap <= times[j] - times[i]
  }

  ghost predicate Recharging(c: Config, s: State, times: seq<real>, k: Key) {
    && Spaced(times, c.rechargeSec * 1000.0)
    && (times != [] ==> k in s.readyAt && s.readyAt[k] == times[|times| - 1] + c.rechargeSec * 1000.0)
  }

  /** Two kicks of one robot are never closer than its recharge time, over any run with any physics,
      placements included. */
  lemma KicksAreSpaced(c: Config, teams: Teams, s: State, events: seq<Event>, k: Key)
    requires HolderFits(teams, s) && AllFit(teams, events) && 0.0 <= c.rechargeSec
    ensures Spaced(FireTimes(c, teams, s, events, |events|, k), c.rechargeSec * 1000.0)
  {
    RechargeFollowsKicks(c, teams, s, events, |events|, k);
  }

  lemma {:induction false} RechargeFollowsKicks(c: Config, teams: Teams, s: State, events: seq<Event>, n: nat, k: Key)
    requires HolderFits(teams, s) && AllFit(teams, events) && 0.0 <= c.rechargeSec && n <= |events|
    ensures Recharging(c, Run(c, teams, s, events, n), FireTimes(c, teams, s, events, n, k), k)
  {
    hide Recharging, Step, FiresAt;
    if n == 0 {
      NoKicks(c, s, k);
    } else {
      RechargeFollowsKicks(c, teams, s, events, n - 1, k);
      var times := FireTimes(c, teams, s, events, n - 1, k);
      StepRecharge(c, teams, Run(c, teams, s, events, n - 1), events[n - 1], k, times);
      assert times + [] == times;
    }
  }

  lemma NoKicks(c: Config, s: State, k: Key)
    ensures Recharging(c, s, [], k)
  {
  }

  lemma StepRecharge(c: Config, teams: Teams, s: State, e: Event, k: Key, times: seq<real>)
    requires HolderFits(teams, s) && EventFits(teams, e) && 0.0 <= c.rechargeSec && Recharging(c, s, times, k)
    ensures var v := Step(c, teams, s, e);
            Recharging(c, v, if FiresAt(c, teams, s, e, k) then times + [v.ball.nowMs] else times, k)
  {
    if e.Frame? {
      FrameRecharge(c, e.scene, Stepped(s, e.body), e.timestep, k);
      PublishEntries(e.scene, Update(c, e.scene, Stepped(s, e.body), e.timestep));
      hide Update, Publish, FiresIn, Recharging;
      var v := Step(c, teams, s, e);
      if FiresAt(c, teams, s, e, k) {
        OneMore(c, s, v, times, k);
      } else {
        NoMore(c, s, v, times, k);
      }
    } else {
      NoMore(c, s, Step(c, teams, s, e), times, k);
    }
  }

  lemma PublishEntries(scene: Scene, v: State)
    requires HolderPresent(scene, v)
    ensures Publish(scene, v) == v.(ball := v.ball.(position := Publish(scene, v).ball.position))
  {
    hide Mouth, OnField;
  }

  lemma OneMore(c: Config, s: State, v: State, times: seq<real>, k: Key)
    requires 0.0 <= c.rechargeSec && Recharging(c, s, times, k)
    requires k in v.readyAt && v.readyAt[k] == v.ball.nowMs + c.rechargeSec * 1000.0
    requires k in s.readyAt ==> s.readyAt[k] <= v.ball.nowMs
    ensures Recharging(c, v, times + [v.ball.nowMs], k)
  {
    var more := times + [v.ball.nowMs];
    forall i, j | 0 <= i < j < |more| ensures c.rechargeSec * 1000.0 <= more[j] - more[i] {
      if j == |times| && i < |times| - 1 {
        assert c.rechargeSec * 1000.0 <= times[|times| - 1] - times[i];
      }
    }
  }

  lemma NoMore(c: Config, s: State, v: State, times: seq<real>, k: Key)
    requires Recharging(c, s, times, k)
    requires k in s.readyAt ==> k in v.readyAt && v.readyAt[k] == s.readyAt[k]
    ensures Recharging(c, v, times, k)
  {
  }

  // --- the kick lock ------------------------------------------------------------------------------------

  /** Something in this event ends the lock of robot k: a placement, or at its turn its mouth is empty
      or the lock may be lifted. */
  ghost predicate EndsLock(c: Config, teams: Teams, s: State, e: Event, k: Key)
    requires HolderFits(teams, s) && EventFits(teams, e) && Fits(teams, k)
  {
    e.Placing? || Frees(c, AtTurn(c, e.scene, Stepped(s, e.body), e.timestep, k), e.scene.At(k), k)
  }

  ghost predicate ActsAt(c: Config, teams: Teams, s: State, e: Event, k: Key)
    requires HolderFits(teams, s) && EventFits(teams, e) && Fits(teams, k)
  {
    e.Frame? && Acts(c, AtTurn(c, e.scene, Stepped(s, e.body), e.timestep, k), e.scene.At(k), k)
  }

  lemma StepLocked(c: Config, teams: Teams, s: State, e: Event, k: Key)
    requires HolderFits(teams, s) && EventFits(teams, e) && Fits(teams, k)
    requires k in s.kicked && !EndsLock(c, teams, s, e, k)
    ensures !ActsAt(c, teams, s, e, k)
    ensures var v := Step(c, teams, s, e); k in v.kicked && v.kicked[k] == s.kicked[k]
  {
    var b := Stepped(s, e.body);
    PreparedKeeps(c, e.scene, b, e.timestep);
    ResolveClock(c, e.scene, Prepared(c, e.scene, b, e.timestep));
    FrameEntries(c, e.scene, b, e.timestep, k);
    hide Prepared, Resolve, Turn, Turns, Update, Acts, Frees, AtTurn, Publish;
    LockedTurn(c, AtTurn(c, e.scene, b, e.timestep, k), e.scene.At(k), k);
    PublishEntries(e.scene, Update(c, e.scene, b, e.timestep));
  }

  lemma StepFires(c: Config, teams: Teams, s: State, e: Event, k: Key)
    requires HolderFits(teams, s) && EventFits(teams, e) && FiresAt(c, teams, s, e, k)
    ensures var v := Step(c, teams, s, e); k in v.kicked && v.kicked[k] == v.ball.nowMs
  {
    var b := Stepped(s, e.body);
    FrameEntries(c, e.scene, b, e.timestep, k);
    hide Prepared, Resolve, Turn, Turns, Update, FiresNow, AtTurn, Publish;
    FiringTurn(c, AtTurn(c, e.scene, b, e.timestep, k), e.scene.At(k), k);
    PublishEntries(e.scene, Update(c, e.scene, b, e.timestep));
  }

  /** From a kick until a placement, an empty mouth at its turn or a lock that may be lifted, the robot
      neither kicks again nor catches the ball. */
  lemma {:induction false} LockedOutAfterKick(c: Config, teams: Teams, s: State, events: seq<Event>, k: Key, kick: nat, n: nat)
    requires HolderFits(teams, s) && AllFit(teams, events) && Fits(teams, k) && kick < n <= |events|
    requires FiresAt(c, teams, Run(c, teams, s, events, kick), events[kick], k)
    requires forall i :: kick < i < n ==> !EndsLock(c, teams, Run(c, teams, s, events, i), events[i], k)
    ensures k in Run(c, teams, s, events, n).kicked
    ensures forall i :: kick < i < n ==> !ActsAt(c, teams, Run(c, teams, s, events, i), events[i], k)
    decreases n
  {
    hide Step, FiresAt, EndsLock, ActsAt;
    if n == kick + 1 {
      StepFires(c, teams, Run(c, teams, s, events, kick), events[kick], k);
    } else {
      LockedOutAfterKick(c, teams, s, events, k, kick, n - 1);
      StepLocked(c, teams, Run(c, teams, s, events, n - 1), events[n - 1], k);
    }
  }

  // --- the speed limit of the dribbler ------------------------------------------------------------------

  /** In its turn the robot takes or keeps the ball with its dribbler. */
  predicate CatchesNow(c: Config, s: State, r: Bot, k: Key) {
    var t := Settle(s, r, k);
    InMouth(c, t, r, k) && !Blocked(t, k) && !Fires(t, r, k) && Catches(Sense(c, t, r, k), r, k)
  }

  /** Relative to its mouth the ball is below the catching speed in this frame and in the one before. */
  predicate SlowEnough(c: Config, s: State, r: Bot) {
    RelativeSpeed(c, s, r, s.ball.velocity) < c.catchMax && RelativeSpeed(c, s, r, s.ball.before) < c.catchMax
  }

  lemma SettleKeepsBall(s: State, r: Bot, k: Key)
    ensures var t := Settle(s, r, k);
            t.ball == s.ball && t.bounced == s.bounced && (t.holder == Some(k) ==> s.holder == Some(k))
  {
    hide Mouth, Parked, Unlocks, LetsGo;
  }

  /** A robot that does not hold the ball catches it only below the speed limit and unless an earlier
      ball bounced off since its mouth was last empty; a faster ball that it may have bounces off. */
  lemma CatchingTurn(c: Config, s: State, r: Bot, k: Key)
    requires s.holder != Some(k)
    ensures CatchesNow(c, s, r, k) ==> SlowEnough(c, s, r) && k !in s.bounced
    ensures var t := Settle(s, r, k);
            InMouth(c, t, r, k) && !Blocked(t, k) && !SlowEnough(c, s, r) ==> k in Turn(c, s, r, k).bounced
  {
    SettleKeepsBall(s, r, k);
    SenseSpeeds(c, s, Settle(s, r, k), r, k);
    hide Settle, InMouth, Blocked, SlowEnough, Launch, Mouth, Parked, AsksKick;
  }

  lemma SenseSpeeds(c: Config, s: State, t: State, r: Bot, k: Key)
    requires t.ball == s.ball && t.bounced == s.bounced && t.holder != Some(k)
    ensures k in Sense(c, t, r, k).bounced <==> k in s.bounced || !SlowEnough(c, s, r)
  {
    hide BodyPoint, Floor;
    assert RelativeSpeed(c, t, r, t.ball.velocity) == RelativeSpeed(c, s, r, s.ball.velocity);
    assert RelativeSpeed(c, t, r, t.ball.before) == RelativeSpeed(c, s, r, s.ball.before);
    hide RelativeSpeed;
  }

  lemma BouncedTurn(c: Config, s: State, r: Bot, k: Key)
    requires k in s.bounced && InMouth(c, Settle(s, r, k), r, k)
    ensures !CatchesNow(c, s, r, k) && k in Turn(c, s, r, k).bounced
  {
    SettleKeepsBall(s, r, k);
    hide Settle, InMouth, Blocked, Launch, Mouth, Parked, AsksKick, Catchable;
  }

  /** A placement, or at its turn the mouth of robot k is empty. */
  ghost predicate Clears(c: Config, teams: Teams, s: State, e: Event, k: Key)
    requires HolderFits(teams, s) && EventFits(teams, e) && Fits(teams, k)
  {
    e.Placing? ||
    !InMouth(c, Settle(AtTurn(c, e.scene, Stepped(s, e.body), e.timestep, k), e.scene.At(k), k), e.scene.At(k), k)
  }

  ghost predicate CatchesAt(c: Config, teams: Teams, s: State, e: Event, k: Key)
    requires HolderFits(teams, s) && EventFits(teams, e) && Fits(teams, k)
  {
    e.Frame? && CatchesNow(c, AtTurn(c, e.scene, Stepped(s, e.body), e.timestep, k), e.scene.At(k), k)
  }

  lemma StepBounced(c: Config, teams: Teams, s: State, e: Event, k: Key)
    requires HolderFits(teams, s) && EventFits(teams, e) && Fits(teams, k)
    requires k in s.bounced && !Clears(c, teams, s, e, k)
    ensures !CatchesAt(c, teams, s, e, k) && k in Step(c, teams, s, e).bounced
  {
    var b := Stepped(s, e.body);
    PreparedKeeps(c, e.scene, b, e.timestep);
    ResolveClock(c, e.scene, Prepared(c, e.scene, b, e.timestep));
    FrameEntries(c, e.scene, b, e.timestep, k);
    hide Prepared, Resolve, Turn, Turns, Update, CatchesNow, AtTurn, Publish, Settle, InMouth;
    BouncedTurn(c, AtTurn(c, e.scene, b, e.timestep, k), e.scene.At(k), k);
    PublishEntries(e.scene, Update(c, e.scene, b, e.timestep));
  }

  /** Once a ball has bounced off a robot, its dribbler catches nothing until its mouth was empty at one
      of its turns or a placement came, however slow the ball gets. */
  lemma {:induction false} BouncedOutUntilEmpty(c: Config, teams: Teams, s: State, events: seq<Event>, k: Key, bounce: nat, n: nat)
    requires HolderFits(teams, s) && AllFit(teams, events) && Fits(teams, k) && bounce <= n <= |events|
    requires k in Run(c, teams, s, events, bounce).bounced
    requires forall i :: bounce <= i < n ==> !Clears(c, teams, Run(c, teams, s, events, i), events[i], k)
    ensures k in Run(c, teams, s, events, n).bounced
    ensures forall i :: bounce <= i < n ==> !CatchesAt(c, teams, Run(c, teams, s, events, i), events[i], k)
    decreases n
  {
    hide Step, Clears, CatchesAt;
    if bounce < n {
      BouncedOutUntilEmpty(c, teams, s, events, k, bounce, n - 1);
      StepBounced(c, teams, Run(c, teams, s, events, n - 1), events[n - 1], k);
    }
  }

  // --- mutual exclusion and delivery over runs --------------------------------------------------------

  /** In each frame the ball is seen where the contest sees it. */
  ghost predicate Undisturbed(c: Config, teams: Teams, s: State, e: Event)
    requires HolderFits(teams, s) && EventFits(teams, e)
  {
    e.Frame? ==> Prepared(c, e.scene, Stepped(s, e.body), e.timestep).ball.placement.None? || s.holder.None?
  }

  ghost predicate UndisturbedRun(c: Config, teams: Teams, s: State, events: seq<Event>)
    requires HolderFits(teams, s) && AllFit(teams, events)
  {
    forall i :: 0 <= i < |events| ==> Undisturbed(c, teams, Run(c, teams, s, events, i), events[i])
  }

  ghost function FrameActors(c: Config, teams: Teams, s: State, e: Event): seq<Key>
    requires HolderFits(teams, s) && EventFits(teams, e)
  {
    match e
    case Frame(scene, body, timestep) =>
      KeysDistinct(scene);
      Actors(c, scene, Resolve(c, scene, Prepared(c, scene, Stepped(s, body), timestep)), scene.Keys())
    case Placing(_, _) => []
  }

  lemma StepExclusive(c: Config, teams: Teams, s: State, e: Event)
    requires HolderFits(teams, s) && EventFits(teams, e) && Rest(c, s) && Lawful(c, s, e) && Undisturbed(c, teams, s, e)
    requires s.pendingKick.Some? ==> s.holder.None?
    ensures |FrameActors(c, teams, s, e)| <= 1
    ensures e.Frame? && s.pendingKick.Some? ==> Launches(Stepped(s, e.body))
    ensures var v := Step(c, teams, s, e);
            v.pendingKick.Some? ==> v.holder.None? && FrameActors(c, teams, s, e) != []
  {
    if e.Frame? {
      var b := Stepped(s, e.body);
      SteppedSound(c, s, e.body);
      PreparedKeeps(c, e.scene, b, e.timestep);
      hide Rest, RealRobots, MouthsOnField, Prepared, Resolve, Turns, Update, OnField, Parked, Launches, Actors, Publish, Sound;
      AtMostOneActs(c, e.scene, b, e.timestep);
      PublishEntries(e.scene, Update(c, e.scene, b, e.timestep));
    }
  }

  /** Nobody holds the ball while a kick waits, and it waits for the next frame only. */
  ghost predicate KickWaits(s: State, n: nat, events: seq<Event>)
    requires n <= |events|
  {
    s.pendingKick.Some? ==> s.holder.None? && n > 0 && events[n - 1].Frame?
  }

  /** Over any run in which no placement is outstanding while a robot holds the ball, at most one robot
      of both teams acts in every frame, nobody holds the ball while a kick waits, and the kick is
      given to the free ball on the field in the very next frame. */
  lemma {:induction false} OneActorPerFrame(c: Config, teams: Teams, s: State, events: seq<Event>, n: nat)
    requires Fresh(s) && AllFit(teams, events) && LawfulRun(c, teams, s, events) && UndisturbedRun(c, teams, s, events)
    requires n <= |events|
    ensures KickWaits(Run(c, teams, s, events, n), n, events)
    ensures n < |events| ==> |FrameActors(c, teams, Run(c, teams, s, events, n), events[n])| <= 1
    ensures n < |events| && events[n].Frame? && Run(c, teams, s, events, n).pendingKick.Some? ==>
              Launches(Stepped(Run(c, teams, s, events, n), events[n].body))
  {
    hide Step, Lawful, Undisturbed, FrameActors, Launches, Rest;
    var t := Run(c, teams, s, events, n);
    ParkedExactlyWhileHeld(c, teams, s, events, n);
    if n > 0 {
      OneActorPerFrame(c, teams, s, events, n - 1);
      ParkedExactlyWhileHeld(c, teams, s, events, n - 1);
      StepExclusive(c, teams, Run(c, teams, s, events, n - 1), events[n - 1]);
      PlacingWaitsNot(c, teams, Run(c, teams, s, events, n - 1), events[n - 1]);
    }
    if n < |events| {
      StepExclusive(c, teams, t, events[n]);
    }
  }

  lemma PlacingWaitsNot(c: Config, teams: Teams, s: State, e: Event)
    requires HolderFits(teams, s) && EventFits(teams, e)
    ensures e.Placing? ==> Step(c, teams, s, e).pendingKick.None?
  {
  }
}
