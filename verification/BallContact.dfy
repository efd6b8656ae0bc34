/** Which measured ball velocity came at the kicker plate, and when a kick lock may be lifted
    (BallContact.js). */
module BallContact {
  import opened RealMath

  /** A ball velocity [m/s], scene axes, y up. */
  datatype V3 = V3(x: real, y: real, z: real)

  /** The plate point: its velocity [mm/s, scene axes (x, z)] and the unit normal, out of the robot. */
  datatype Plate = Plate(velocity: V2, normal: V2)

  /** Speed of the ball away from the plate along its normal [mm/s]. */
  function NormalSpeed(plate: Plate, sample: V3): real {
    (sample.x * 1000.0 - plate.velocity.x) * plate.normal.x + (sample.z * 1000.0 - plate.velocity.y) * plate.normal.y
  }

  predicate Approaches(plate: Plate, sample: V3) {
    NormalSpeed(plate, sample) < 0.0
  }

  /** Between the older sample k + 1 and sample k the ball already lost more approach speed than
      friction can take: sample k spans the collision. */
  predicate SpansCollision(plate: Plate, samples: seq<V3>, maxDrop: real, k: nat)
    requires k < |samples|
  {
    && k + 1 < |samples| && maxDrop > 0.0 && Approaches(plate, samples[k + 1])
    && NormalSpeed(plate, samples[k]) - NormalSpeed(plate, samples[k + 1]) > maxDrop
  }

  predicate Usable(plate: Plate, samples: seq<V3>, maxDrop: real, k: nat)
    requires k < |samples|
  {
    Approaches(plate, samples[k]) && !SpansCollision(plate, samples, maxDrop, k)
  }

  /** Index of the newest usable sample at or after `from` (the list is newest first), else 0. */
  function IncomingIndex(plate: Plate, samples: seq<V3>, maxDrop: real, from: nat): (r: nat)
    requires from <= |samples| && samples != []
    ensures r < |samples|
    decreases |samples| - from
  {
    if from == |samples| then 0
    else if Usable(plate, samples, maxDrop, from) then from
    else IncomingIndex(plate, samples, maxDrop, from + 1)
  }

  lemma {:induction false} NewestUsable(plate: Plate, samples: seq<V3>, maxDrop: real, from: nat)
    requires from <= |samples| && samples != []
    ensures var r := IncomingIndex(plate, samples, maxDrop, from);
            if exists k :: from <= k < |samples| && Usable(plate, samples, maxDrop, k)
            then from <= r && Usable(plate, samples, maxDrop, r) && forall k :: from <= k < r ==> !Usable(plate, samples, maxDrop, k)
            else r == 0
    decreases |samples| - from
  {
    if from < |samples| && !Usable(plate, samples, maxDrop, from) {
      NewestUsable(plate, samples, maxDrop, from + 1);
    }
  }

  /** The oldest approaching sample at or after k is usable: nothing older approaches. */
  lemma {:induction false} OldestApproach(plate: Plate, samples: seq<V3>, maxDrop: real, k: nat)
    requires k < |samples| && Approaches(plate, samples[k])
    ensures exists j :: k <= j < |samples| && Usable(plate, samples, maxDrop, j)
    decreases |samples| - k
  {
    if k + 1 < |samples| && Approaches(plate, samples[k + 1]) {
      OldestApproach(plate, samples, maxDrop, k + 1);
    } else {
      assert Usable(plate, samples, maxDrop, k);
    }
  }

  /** The chosen sample approaches the plate exactly when any sample does; it is then the newest
      approaching one that does not span a collision, and otherwise the newest sample. */
  lemma IncomingApproaches(plate: Plate, samples: seq<V3>, maxDrop: real)
    requires samples != []
    ensures var r := IncomingIndex(plate, samples, maxDrop, 0);
            && (Approaches(plate, samples[r]) <==> exists k :: 0 <= k < |samples| && Approaches(plate, samples[k]))
            && (Approaches(plate, samples[r]) ==> !SpansCollision(plate, samples, maxDrop, r))
            && (forall k :: 0 <= k < r ==> Approaches(plate, samples[k]) ==> SpansCollision(plate, samples, maxDrop, k))
            && (!Approaches(plate, samples[r]) ==> r == 0)
  {
    hide NormalSpeed, IncomingIndex;
    NewestUsable(plate, samples, maxDrop, 0);
    if k :| 0 <= k < |samples| && Approaches(plate, samples[k]) {
      OldestApproach(plate, samples, maxDrop, k);
      var j :| k <= j < |samples| && Usable(plate, samples, maxDrop, j);
      assert 0 <= j;
    }
    forall k | 0 <= k < IncomingIndex(plate, samples, maxDrop, 0) && Approaches(plate, samples[k])
      ensures SpansCollision(plate, samples, maxDrop, k)
    {
      assert !Usable(plate, samples, maxDrop, k);
    }
  }

  method IncomingVelocity(samples: seq<V3>, plate: Plate, maxDrop: real) returns (sample: V3)
    requires samples != []
    ensures sample == samples[IncomingIndex(plate, samples, maxDrop, 0)]
  {
    hide NormalSpeed;
    var k := 0;
    while k < |samples|
      invariant 0 <= k <= |samples|
      invariant IncomingIndex(plate, samples, maxDrop, 0) == IncomingIndex(plate, samples, maxDrop, k)
    {
      assert Usable(plate, samples, maxDrop, k) ==> IncomingIndex(plate, samples, maxDrop, k) == k;
      var normal := NormalSpeed(plate, samples[k]);
      if normal >= 0.0 {
        k := k + 1;
        continue;
      }
      if k + 1 < |samples| && maxDrop > 0.0 {
        var older := NormalSpeed(plate, samples[k + 1]);
        if older < 0.0 && normal - older > maxDrop {
          k := k + 1;
          continue;
        }
      }
      return samples[k];
    }
    return samples[0];
  }

  /** A kick lock may be lifted only after the launch went out, at least 150 ms after the kick, and
      for a ball that does not leave the plate faster than 20 mm/s. */
  predicate CanRecover(ageMs: real, normalSpeed: real, pendingLaunch: bool) {
    !pendingLaunch && ageMs >= 150.0 && normalSpeed <= 20.0
  }
}
