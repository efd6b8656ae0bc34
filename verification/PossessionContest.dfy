/** The contest for the ball: who wins it, and how much closer a challenger has to be. */
module PossessionContest {
  import opened Options
  import opened RealMath
  import opened BallContact
  import opened Rebound
  import opened Possession
  import opened PossessionInvariant

  ghost predicate May(c: Config, scene: Scene, s: State, ball: V3, k: Key)
    requires scene.Has(k)
  {
    Eligible(c, s, scene.At(k), ball, k)
  }

  ghost function BidOf(c: Config, scene: Scene, s: State, ball: V3, k: Key): Candidate
    requires scene.Has(k)
  {
    Bid(c, s, scene.At(k), ball, k)
  }

  /** The bid of the i-th robot: nobody beats it and it beats everybody before it. */
  ghost predicate Best(c: Config, scene: Scene, s: State, ball: V3, keys: seq<Key>, i: int, best: Candidate)
    requires AllIn(scene, keys)
  {
    && 0 <= i < |keys| && May(c, scene, s, ball, keys[i]) && best == BidOf(c, scene, s, ball, keys[i])
    && (forall j :: 0 <= j < |keys| && May(c, scene, s, ball, keys[j]) ==> !Beats(BidOf(c, scene, s, ball, keys[j]), best))
    && (forall j :: 0 <= j < i && May(c, scene, s, ball, keys[j]) ==> Beats(best, BidOf(c, scene, s, ball, keys[j])))
  }

  lemma BeatsIsStrictWeakOrder(x: Candidate, y: Candidate, z: Candidate)
    ensures !Beats(x, x)
    ensures Beats(x, y) && Beats(y, z) ==> Beats(x, z)
    ensures !Beats(x, y) && !Beats(y, z) ==> !Beats(x, z)
  {
  }

  /** The contest is empty exactly when no robot may act; otherwise its winner is the first of the
      best bids: a kick request before a dribble, then the smallest effective distance. */
  lemma {:induction false} ContestOptimal(c: Config, scene: Scene, s: State, ball: V3, keys: seq<Key>)
    requires AllIn(scene, keys)
    ensures var best := Contest(c, scene, s, ball, keys);
            && (best.None? <==> forall i :: 0 <= i < |keys| ==> !May(c, scene, s, ball, keys[i]))
            && (best.Some? ==> exists i :: Best(c, scene, s, ball, keys, i, best.value))
  {
    hide Eligible, Bid, Beats;
    if keys != [] {
      var n := |keys| - 1;
      ContestOptimal(c, scene, s, ball, keys[..n]);
      var before := Contest(c, scene, s, ball, keys[..n]);
      assert forall i :: 0 <= i < n ==> keys[..n][i] == keys[i];
      if before.None? {
        BeatsIsStrictWeakOrder(BidOf(c, scene, s, ball, keys[n]), BidOf(c, scene, s, ball, keys[n]), BidOf(c, scene, s, ball, keys[n]));
        if May(c, scene, s, ball, keys[n]) {
          assert Best(c, scene, s, ball, keys, n, BidOf(c, scene, s, ball, keys[n]));
        }
      } else {
        var i :| Best(c, scene, s, ball, keys[..n], i, before.value);
        ContestStep(c, scene, s, ball, keys, i, before.value);
      }
    }
  }

  lemma ContestStep(c: Config, scene: Scene, s: State, ball: V3, keys: seq<Key>, i: int, best: Candidate)
    requires AllIn(scene, keys) && keys != []
    requires Best(c, scene, s, ball, keys[..|keys| - 1], i, best)
    ensures var n := |keys| - 1;
            var bid := BidOf(c, scene, s, ball, keys[n]);
            if May(c, scene, s, ball, keys[n]) && Beats(bid, best) then Best(c, scene, s, ball, keys, n, bid)
            else Best(c, scene, s, ball, keys, i, best)
  {
    hide May, BidOf, Beats;
    var n := |keys| - 1;
    var bid := BidOf(c, scene, s, ball, keys[n]);
    assert forall j :: 0 <= j < n ==> keys[..n][j] == keys[j];
    BeatsIsStrictWeakOrder(bid, bid, bid);
    if May(c, scene, s, ball, keys[n]) && Beats(bid, best) {
      forall j | 0 <= j < n && May(c, scene, s, ball, keys[j])
        ensures Beats(bid, BidOf(c, scene, s, ball, keys[j])) && !Beats(BidOf(c, scene, s, ball, keys[j]), bid)
      {
        NobodyBeats(bid, best, BidOf(c, scene, s, ball, keys[j]));
      }
    }
  }

  lemma NobodyBeats(bid: Candidate, best: Candidate, other: Candidate)
    requires Beats(bid, best) && !Beats(other, best)
    ensures Beats(bid, other) && !Beats(other, bid)
  {
  }

  /** Hysteresis: a holder that may act loses the ball to a robot that only dribbles only if it asks
      for no kick itself and that robot is at least the takeover margin closer to the ball. */
  lemma HolderKeepsEdge(c: Config, scene: Scene, s: State, ball: V3)
    requires HolderPresent(scene, s) && s.holder.Some? && May(c, scene, s, ball, s.holder.value)
    ensures var best := Contest(c, scene, s, ball, scene.Keys());
            && best.Some?
            && (best.value.key != s.holder.value && !best.value.kick ==>
                  && scene.Has(best.value.key)
                  && !WantsKick(s, scene.At(s.holder.value), s.holder.value)
                  && Distance(c, scene.At(best.value.key), ball) <= Distance(c, scene.At(s.holder.value), ball) - 30.0)
  {
    var keys := scene.Keys();
    KeysDistinct(scene);
    ContestOptimal(c, scene, s, ball, keys);
    hide Eligible, Contest, Scene.Keys, Distance, WantsKick;
    var best := Contest(c, scene, s, ball, keys);
    var h := s.holder.value;
    var j :| 0 <= j < |keys| && keys[j] == h;
    assert May(c, scene, s, ball, keys[j]);
    var i :| Best(c, scene, s, ball, keys, i, best.value);
    assert !Beats(BidOf(c, scene, s, ball, keys[j]), best.value);
  }

  /** Place of a robot in the order in which the contest and the turns go through both teams. */
  function Order(scene: Scene, k: Key): nat {
    if k.isYellow then |scene.blue| + k.id else k.id
  }

  lemma OrderIs(scene: Scene, k: Key)
    requires scene.Has(k)
    ensures Order(scene, k) < |scene.Keys()| && scene.Keys()[Order(scene, k)] == k
  {
  }

  /** Distance of a robot to the ball, less 30 mm for the one that holds it. */
  function Handicapped(c: Config, scene: Scene, s: State, ball: V3, k: Key): real
    requires scene.Has(k)
  {
    Distance(c, scene.At(k), ball) - if s.holder == Some(k) then 30.0 else 0.0
  }

  /** Robot k is preferred to robot j: a kick request before a dribble, then the smaller distance, then the
      order of the robots. */
  predicate Outbids(c: Config, scene: Scene, s: State, ball: V3, k: Key, j: Key)
    requires scene.Has(k) && scene.Has(j)
  {
    var kicks, other := WantsKick(s, scene.At(k), k), WantsKick(s, scene.At(j), j);
    var dk, dj := Handicapped(c, scene, s, ball, k), Handicapped(c, scene, s, ball, j);
    (kicks && !other) || (kicks == other && (dk < dj || (dk == dj && Order(scene, k) < Order(scene, j))))
  }

  lemma OutbidsIs(c: Config, scene: Scene, s: State, ball: V3, k: Key, j: Key)
    requires scene.Has(k) && scene.Has(j)
    ensures Outbids(c, scene, s, ball, k, j)
            <==> || Beats(BidOf(c, scene, s, ball, k), BidOf(c, scene, s, ball, j))
                 || (!Beats(BidOf(c, scene, s, ball, j), BidOf(c, scene, s, ball, k)) && Order(scene, k) < Order(scene, j))
  {
    assert Effective(c, s, scene.At(k), ball, k) == Handicapped(c, scene, s, ball, k);
    assert Effective(c, s, scene.At(j), ball, j) == Handicapped(c, scene, s, ball, j);
    hide WantsKick, Effective, Handicapped, Order;
  }

  /** A robot wins the contest exactly when it may act and outbids every other robot that may. */
  lemma WinnerExactly(c: Config, scene: Scene, s: State, ball: V3, k: Key)
    requires scene.Has(k)
    ensures var best := Contest(c, scene, s, ball, scene.Keys());
            best.Some? && best.value.key == k
            <==> May(c, scene, s, ball, k)
                 && forall j: Key :: j != k && scene.Has(j) && May(c, scene, s, ball, j) ==> Outbids(c, scene, s, ball, k, j)
  {
    var keys := scene.Keys();
    KeysDistinct(scene);
    ContestOptimal(c, scene, s, ball, keys);
    hide Contest, Scene.Keys, May, BidOf, Outbids, Beats, Order;
    var best := Contest(c, scene, s, ball, keys);
    OrderIs(scene, k);
    if best.Some? {
      var i :| Best(c, scene, s, ball, keys, i, best.value);
      WinnerOutbids(c, scene, s, ball, keys, i, best.value);
      BidKey(c, scene, s, ball, keys[i]);
      if keys[i] != k && May(c, scene, s, ball, k) {
        NotBoth(c, scene, s, ball, keys[i], k);
      }
    } else {
      assert !May(c, scene, s, ball, keys[Order(scene, k)]);
    }
  }

  lemma BidKey(c: Config, scene: Scene, s: State, ball: V3, k: Key)
    requires scene.Has(k)
    ensures BidOf(c, scene, s, ball, k).key == k
  {
    hide WantsKick, Effective;
  }

  lemma WinnerOutbids(c: Config, scene: Scene, s: State, ball: V3, keys: seq<Key>, i: int, best: Candidate)
    requires keys == scene.Keys() && AllIn(scene, keys) && Best(c, scene, s, ball, keys, i, best)
    ensures forall j: Key :: j != keys[i] && scene.Has(j) && May(c, scene, s, ball, j) ==> Outbids(c, scene, s, ball, keys[i], j)
  {
    hide Contest, Scene.Keys, May, BidOf, Outbids, Beats, Order;
    OrderOfKey(scene, i);
    forall j: Key | j != keys[i] && scene.Has(j) && May(c, scene, s, ball, j)
      ensures Outbids(c, scene, s, ball, keys[i], j)
    {
      OrderIs(scene, j);
      var n := Order(scene, j);
      assert May(c, scene, s, ball, keys[n]);
      OutbidsIs(c, scene, s, ball, keys[i], j);
    }
  }

  lemma OrderOfKey(scene: Scene, i: nat)
    requires i < |scene.Keys()|
    ensures Order(scene, scene.Keys()[i]) == i
  {
  }

  lemma NotBoth(c: Config, scene: Scene, s: State, ball: V3, k: Key, j: Key)
    requires scene.Has(k) && scene.Has(j)
    ensures !(Outbids(c, scene, s, ball, k, j) && Outbids(c, scene, s, ball, j, k))
  {
    hide WantsKick, Handicapped, Order;
  }

  lemma MouthDistance(c: Config, r: Bot)
    requires IsHypot(c.hyp) && Dot(r.heading, r.heading) == 1.0
    ensures Distance(c, r, Mouth(r)) == MOUTH_REACH
  {
    var m := Mouth(r);
    MouthArm(r);
    hide Mouth, Dot;
    HypotIs(c.hyp, r.position.x - m.x, r.position.y - m.z, MOUTH_REACH);
  }

  lemma MouthArm(r: Bot)
    requires Dot(r.heading, r.heading) == 1.0
    ensures var x, y := r.position.x - Mouth(r).x, r.position.y - Mouth(r).z;
            x * x + y * y == MOUTH_REACH * MOUTH_REACH
    ensures Dot(V2(Mouth(r).x - r.position.x, Mouth(r).z - r.position.y), Normal(r.heading)) == MOUTH_REACH
  {
    var h := r.heading;
    assert (95.0 * h.x) * (95.0 * h.x) == 9025.0 * (h.x * h.x);
    assert (95.0 * h.y) * (95.0 * h.y) == 9025.0 * (h.y * h.y);
    assert (95.0 * h.x) * h.x == 95.0 * (h.x * h.x);
    assert (95.0 * h.y) * h.y == 95.0 * (h.y * h.y);
  }

  /** The forced window of the holder tells the truth: a ball in a robot's mouth is in its window. */
  lemma MouthIsInWindow(c: Config, r: Bot)
    requires IsHypot(c.hyp) && Dot(r.heading, r.heading) == 1.0 && c.mouthCos < 1.0
    ensures Window(c, r, Mouth(r))
  {
    MouthDistance(c, r);
    MouthArm(r);
    MouthHeight(r);
    hide IsHypot, Dot, Mouth, Distance;
  }

  lemma MouthHeight(r: Bot)
    ensures Mouth(r).y == 25.0
  {
  }

  /** A held ball comes back where it was held: letting go, kicking and losing the contest all put the
      parked body into the mouth of the robot that had it, inside that robot's window. */
  lemma HeldBallReturns(c: Config, s: State, r: Bot, k: Key, done: seq<Key>, launch: V3)
    requires Sound(c, s, done) && !Mentions(done, k) && s.holder == Some(k)
    requires IsHypot(c.hyp) && Dot(r.heading, r.heading) == 1.0 && c.mouthCos < 1.0
    ensures Target(Release(s, r, k)) == Target(AfterKick(s, r, k, launch)) == Target(Steal(s, Mouth(r))) == Mouth(r)
    ensures Window(c, r, Target(Release(s, r, k)))
  {
    MouthIsInWindow(c, r);
    hide Window, Mouth, IsHypot, Dot, OnField, Parked;
  }
}
