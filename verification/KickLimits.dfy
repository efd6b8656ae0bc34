/** The kicker's speed limits (Robot::applyKickLimits) on values. */
module KickLimits {
  import opened RealMath

  /** Kick speeds along the body's heading and upwards [mm/s]. */
  datatype Kick = Kick(forward: real, up: real)

  function ScaleKick(k: real, kick: Kick): Kick {
    Kick(kick.forward * k, kick.up * k)
  }

  function Limit(hyp: (real, real) -> real, maxStraight: real, maxChip: real, kick: Kick): Kick {
    if kick.up > 0.0 then
      var speed := hyp(kick.forward, kick.up);
      if maxChip > 0.0 && speed > maxChip then ScaleKick(maxChip / speed, kick) else kick
    else if maxStraight > 0.0 && Abs(kick.forward) > maxStraight then
      kick.(forward := CopySign(maxStraight, kick.forward))
    else
      kick
  }

  ghost predicate Allowed(hyp: (real, real) -> real, maxStraight: real, maxChip: real, kick: Kick) {
    if kick.up > 0.0 then maxChip > 0.0 ==> hyp(kick.forward, kick.up) <= maxChip
    else maxStraight > 0.0 ==> Abs(kick.forward) <= maxStraight
  }

  lemma ScaledKickLength(hyp: (real, real) -> real, k: real, kick: Kick, r: Kick)
    requires IsHypot(hyp) && 0.0 <= k && r == ScaleKick(k, kick)
    ensures hyp(r.forward, r.up) == k * hyp(kick.forward, kick.up)
    ensures 0.0 < k && 0.0 < kick.up ==> 0.0 < r.up
  {
    hide IsHypot;
    HypotScale(hyp, k, V2(kick.forward, kick.up), r.forward, r.up);
    if 0.0 < k && 0.0 < kick.up {
      NamedProductPositive(kick.up, k, r.up);
    }
  }

  /** A limited kick is allowed; an allowed kick is left alone; a chip that is too fast is cut to
      exactly the chip limit with its direction kept, a straight kick to the straight limit with its
      sign kept; and a chip stays a chip. */
  lemma LimitHolds(hyp: (real, real) -> real, maxStraight: real, maxChip: real, kick: Kick)
    requires IsHypot(hyp)
    ensures var r := Limit(hyp, maxStraight, maxChip, kick);
            && Allowed(hyp, maxStraight, maxChip, r)
            && (Allowed(hyp, maxStraight, maxChip, kick) <==> r == kick)
            && (kick.up > 0.0 <==> r.up > 0.0)
            && (kick.up <= 0.0 ==> r.up == kick.up)
            && (r != kick && kick.up > 0.0 ==>
                  hyp(r.forward, r.up) == maxChip && exists k: real :: 0.0 < k < 1.0 && r == ScaleKick(k, kick))
            && (r != kick && kick.up <= 0.0 ==>
                  Abs(r.forward) == maxStraight && (0.0 <= r.forward <==> 0.0 <= kick.forward))
  {
    var r := Limit(hyp, maxStraight, maxChip, kick);
    hide IsHypot, ScaleKick;
    if kick.up > 0.0 {
      var speed := hyp(kick.forward, kick.up);
      if maxChip > 0.0 && speed > maxChip {
        var k := maxChip / speed;
        ProperFraction(maxChip, speed);
        ScaledKickLength(hyp, k, kick, r);
        assert r == ScaleKick(k, kick);
      }
    }
  }
}
