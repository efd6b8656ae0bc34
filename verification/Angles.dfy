/** Angles modulo a full turn: normalizeRadian and calcVelocity of the simulator, unwrap of the
    measuring tool. `pi` stands for the circle constant; only its sign matters here. */
module Angles {
  import opened RealMath

  /** k full turns away from an angle. */
  function Turned(pi: real, angle: real, k: int): real {
    angle + k as real * (2.0 * pi)
  }

  ghost predicate Congruent(pi: real, a: real, b: real) {
    exists k: int :: a == Turned(pi, b, k)
  }

  /** How often the loops of normalizeRadian still run. */
  function Excess(pi: real, x: real): nat
    requires 0.0 < pi
  {
    if Abs(x) <= pi then 0 else ExcessOver(pi, Abs(x) - pi) + 1
  }

  function ExcessOver(pi: real, over: real): nat
    requires 0.0 < pi && 0.0 < over
  {
    Quotient(over, 2.0 * pi);
    (over / (2.0 * pi)).Floor
  }

  lemma ExcessFalls(pi: real, x: real, y: real)
    requires 0.0 < pi && pi < Abs(x) && y == (if x > pi then x - 2.0 * pi else x + 2.0 * pi)
    ensures Excess(pi, y) < Excess(pi, x)
  {
    var turn := 2.0 * pi;
    var over := Abs(x) - pi;
    if pi < Abs(y) {
      OneTurnLess(turn, over, Abs(y) - pi);
    }
  }

  lemma OneTurnLess(turn: real, over: real, less: real)
    requires 0.0 < turn && less == over - turn && 0.0 < less
    ensures (less / turn).Floor + 1 == (over / turn).Floor
  {
    var q := less / turn;
    Quotient(less, turn);
    Quotient(over, turn);
    assert turn * (q + 1.0) == turn * q + turn;
    QuotientIs(over, turn, q + 1.0);
  }

  lemma QuotientIs(a: real, k: real, q: real)
    requires 0.0 < k && a == k * q
    ensures a / k == q
  {
    DivMul(k, q);
  }

  function Wrap(pi: real, x: real): real
    requires 0.0 < pi
    decreases Excess(pi, x)
  {
    if x > pi then
      ExcessFalls(pi, x, x - 2.0 * pi);
      Wrap(pi, x - 2.0 * pi)
    else if x < -pi then
      ExcessFalls(pi, x, x + 2.0 * pi);
      Wrap(pi, x + 2.0 * pi)
    else x
  }

  lemma TurnedTwice(pi: real, x: real, a: int, b: int)
    ensures Turned(pi, Turned(pi, x, a), b) == Turned(pi, x, a + b)
  {
    var turn := 2.0 * pi;
    assert (a + b) as real * turn == a as real * turn + b as real * turn;
  }

  lemma OneTurn(pi: real, x: real)
    ensures Turned(pi, x, -1) == x - 2.0 * pi && Turned(pi, x, 1) == x + 2.0 * pi && Turned(pi, x, 0) == x
  {
  }

  /** Wrapping lands in [-pi, pi] on an angle that differs by whole turns. */
  lemma {:induction false} WrapIsCongruent(pi: real, x: real)
    requires 0.0 < pi
    ensures -pi <= Wrap(pi, x) <= pi && Congruent(pi, Wrap(pi, x), x)
    ensures -pi <= x <= pi ==> Wrap(pi, x) == x
    decreases Excess(pi, x)
  {
    OneTurn(pi, x);
    hide Turned;
    if x > pi {
      ExcessFalls(pi, x, x - 2.0 * pi);
      WrapIsCongruent(pi, x - 2.0 * pi);
      CongruentShift(pi, Wrap(pi, x), x, -1, x - 2.0 * pi);
    } else if x < -pi {
      ExcessFalls(pi, x, x + 2.0 * pi);
      WrapIsCongruent(pi, x + 2.0 * pi);
      CongruentShift(pi, Wrap(pi, x), x, 1, x + 2.0 * pi);
    } else {
      assert Wrap(pi, x) == Turned(pi, x, 0);
    }
  }

  lemma CongruentShift(pi: real, a: real, x: real, k: int, y: real)
    requires y == Turned(pi, x, k) && Congruent(pi, a, y)
    ensures Congruent(pi, a, x)
  {
    hide Turned;
    var j: int :| a == Turned(pi, y, j);
    TurnedTwice(pi, x, k, j);
    assert a == Turned(pi, x, k + j);
  }

  /** Two congruent angles less than a turn apart are equal. */
  lemma CongruentClose(pi: real, a: real, b: real)
    requires 0.0 < pi && Congruent(pi, a, b) && Abs(a - b) < 2.0 * pi
    ensures a == b
  {
    var k: int :| a == Turned(pi, b, k);
    NoTurn(2.0 * pi, k, a - b);
    OneTurn(pi, b);
  }

  lemma NoTurn(turn: real, k: int, d: real)
    requires 0.0 < turn && d == k as real * turn && -turn < d < turn
    ensures k == 0
  {
    AtLeastOneTurn(turn, k as real, d);
    AtLeastOneTurn(turn, -(k as real), -d);
  }

  lemma AtLeastOneTurn(turn: real, k: real, d: real)
    requires 0.0 < turn && d == k * turn
    ensures 1.0 <= k ==> turn <= d
  {
    if 1.0 <= k {
      ProductMonotone(1.0, k, turn);
    }
  }

  lemma WrapStep(pi: real, x: real)
    requires 0.0 < pi
    ensures x > pi ==> Wrap(pi, x - 2.0 * pi) == Wrap(pi, x) && Excess(pi, x - 2.0 * pi) < Excess(pi, x)
    ensures x < -pi ==> Wrap(pi, x + 2.0 * pi) == Wrap(pi, x) && Excess(pi, x + 2.0 * pi) < Excess(pi, x)
    ensures -pi <= x <= pi ==> Wrap(pi, x) == x
  {
    if Abs(x) > pi {
      ExcessFalls(pi, x, if x > pi then x - 2.0 * pi else x + 2.0 * pi);
    }
  }

  method NormalizeRadian(pi: real, radian: real) returns (r: real)
    requires 0.0 < pi
    ensures r == Wrap(pi, radian)
    ensures -pi <= r <= pi && Congruent(pi, r, radian)
  {
    hide *;
    r := radian;
    while r > pi
      invariant Wrap(pi, r) == Wrap(pi, radian)
      decreases Excess(pi, r)
    {
      WrapStep(pi, r);
      r := r - 2.0 * pi;
    }
    while r < -pi
      invariant Wrap(pi, r) == Wrap(pi, radian) && r <= pi
      decreases Excess(pi, r)
    {
      WrapStep(pi, r);
      r := r + 2.0 * pi;
    }
    WrapStep(pi, r);
    WrapIsCongruent(pi, radian);
  }

  // --- differences of headings ------------------------------------------------------------------------

  lemma CongruentDifference(pi: real, a: real, b: real, x: real, y: real)
    requires Congruent(pi, a, x) && Congruent(pi, b, y)
    ensures Congruent(pi, a - b, x - y)
  {
    var j: int :| a == Turned(pi, x, j);
    var k: int :| b == Turned(pi, y, k);
    var turn := 2.0 * pi;
    assert (j - k) as real * turn == j as real * turn - k as real * turn;
    assert a - b == Turned(pi, x - y, j - k);
  }

  /** The wrapped difference of two readings is the true step of a signal that moves less than half a
      turn, however the readings were normalised. */
  lemma WrapRecoversStep(pi: real, a: real, b: real, x: real, y: real)
    requires 0.0 < pi && Congruent(pi, a, x) && Congruent(pi, b, y) && Abs(x - y) < pi
    ensures Wrap(pi, a - b) == x - y
  {
    hide Wrap, Turned;
    CongruentDifference(pi, a, b, x, y);
    WrapIsCongruent(pi, a - b);
    CongruentTrans(pi, Wrap(pi, a - b), a - b, x - y);
    CongruentClose(pi, Wrap(pi, a - b), x - y);
  }

  lemma CongruentTrans(pi: real, a: real, b: real, x: real)
    requires Congruent(pi, a, b) && Congruent(pi, b, x)
    ensures Congruent(pi, a, x)
  {
    hide Turned;
    var k: int :| b == Turned(pi, x, k);
    CongruentShift(pi, a, x, k, b);
  }

  datatype Pose = Pose(x: real, y: real, z: real, w: real)

  function CalcVelocity(pi: real, pose: Pose, prePose: Pose, deltaTime: real): Pose
    requires 0.0 < pi && deltaTime != 0.0
  {
    Pose((pose.x - prePose.x) / deltaTime, (pose.y - prePose.y) / deltaTime, (pose.z - prePose.z) / deltaTime,
         Wrap(pi, pose.w - prePose.w) / deltaTime)
  }

  /** Moving by the computed velocity for the time step leads from the old pose to the new one; the
      heading follows any true heading that turned by less than half a turn. */
  lemma VelocityMoves(pi: real, pose: Pose, prePose: Pose, deltaTime: real, heading: real, preHeading: real)
    requires 0.0 < pi && 0.0 < deltaTime && Abs(heading - preHeading) < pi
    requires Congruent(pi, pose.w, heading) && Congruent(pi, prePose.w, preHeading)
    ensures var v := CalcVelocity(pi, pose, prePose, deltaTime);
            && prePose.x + deltaTime * v.x == pose.x && prePose.y + deltaTime * v.y == pose.y && prePose.z + deltaTime * v.z == pose.z
            && preHeading + deltaTime * v.w == heading
  {
    WrapRecoversStep(pi, pose.w, prePose.w, heading, preHeading);
    Reached(prePose.x, pose.x - prePose.x, deltaTime);
    Reached(prePose.y, pose.y - prePose.y, deltaTime);
    Reached(prePose.z, pose.z - prePose.z, deltaTime);
    Reached(preHeading, Wrap(pi, pose.w - prePose.w), deltaTime);
    hide Wrap, Congruent;
  }

  lemma Reached(p: real, d: real, dt: real)
    requires 0.0 < dt
    ensures p + dt * (d / dt) == p + d
  {
    Quotient(d, dt);
  }

  // --- unwrap -------------------------------------------------------------------------------------------

  function Unwrapped(pi: real, angles: seq<real>): (r: seq<real>)
    requires 0.0 < pi
    ensures |r| == |angles|
  {
    if |angles| <= 1 then angles
    else
      var n := |angles| - 1;
      var before := Unwrapped(pi, angles[..n]);
      before + [before[n - 1] + Wrap(pi, angles[n] - angles[n - 1])]
  }

  method Unwrap(pi: real, angles: seq<real>) returns (out: seq<real>)
    requires 0.0 < pi
    ensures out == Unwrapped(pi, angles)
  {
    hide Wrap;
    out := [];
    var prev: real := 0.0;
    var acc: real := 0.0;
    var i := 0;
    while i < |angles|
      invariant 0 <= i <= |angles|
      invariant out == Unwrapped(pi, angles[..i])
      invariant i > 0 ==> prev == angles[i - 1] && acc == out[i - 1]
    {
      var a := angles[i];
      if i > 0 {
        var d := NormalizeRadian(pi, a - prev);
        acc := acc + d;
      } else {
        acc := a;
      }
      assert angles[..i + 1][..i] == angles[..i];
      out := out + [acc];
      prev := a;
      i := i + 1;
    }
    assert angles[..i] == angles;
  }

  ghost predicate Readings(pi: real, angles: seq<real>, signal: seq<real>) {
    |angles| == |signal| && forall i :: 0 <= i < |angles| ==> Congruent(pi, angles[i], signal[i])
  }

  ghost predicate SlowTurning(pi: real, signal: seq<real>) {
    forall i :: 0 < i < |signal| ==> Abs(signal[i] - signal[i - 1]) < pi
  }

  /** Unwrapping the readings of a signal that moves less than half a turn between samples gives the
      signal back, up to the whole turns by which its first reading is off. */
  lemma {:induction false} UnwrapRecovers(pi: real, angles: seq<real>, signal: seq<real>, offset: real)
    requires 0.0 < pi && Readings(pi, angles, signal) && SlowTurning(pi, signal)
    requires angles != [] ==> offset == angles[0] - signal[0]
    ensures forall i :: 0 <= i < |signal| ==> Unwrapped(pi, angles)[i] == signal[i] + offset
    decreases |signal|
  {
    hide Wrap, Congruent;
    if |signal| > 1 {
      var n := |signal| - 1;
      UnwrapRecovers(pi, angles[..n], signal[..n], offset);
      WrapRecoversStep(pi, angles[n], angles[n - 1], signal[n], signal[n - 1]);
      assert Unwrapped(pi, angles[..n])[n - 1] == signal[..n][n - 1] + offset;
    }
  }

  function WrapAll(pi: real, signal: seq<real>): seq<real>
    requires 0.0 < pi
  {
    seq(|signal|, i requires 0 <= i < |signal| => Wrap(pi, signal[i]))
  }

  ghost predicate TurnedAll(pi: real, out: seq<real>, signal: seq<real>, k: int) {
    |out| == |signal| && forall i :: 0 <= i < |signal| ==> out[i] == Turned(pi, signal[i], k)
  }

  /** Wrap and unwrap are inverse up to one constant number of turns. */
  lemma UnwrapAfterWrap(pi: real, signal: seq<real>)
    requires 0.0 < pi && SlowTurning(pi, signal)
    ensures exists k: int :: TurnedAll(pi, Unwrapped(pi, WrapAll(pi, signal)), signal, k)
  {
    hide Wrap, Turned, Unwrapped;
    var angles := WrapAll(pi, signal);
    forall i | 0 <= i < |signal| ensures Congruent(pi, angles[i], signal[i]) {
      WrapIsCongruent(pi, signal[i]);
    }
    if signal == [] {
      assert TurnedAll(pi, Unwrapped(pi, angles), signal, 0);
    } else {
      var k: int :| angles[0] == Turned(pi, signal[0], k);
      UnwrapRecovers(pi, angles, signal, angles[0] - signal[0]);
      forall i | 0 <= i < |signal| ensures Unwrapped(pi, angles)[i] == Turned(pi, signal[i], k) {
        SameTurns(pi, signal[0], signal[i], k);
      }
      assert TurnedAll(pi, Unwrapped(pi, angles), signal, k);
    }
  }

  lemma SameTurns(pi: real, x: real, y: real, k: int)
    ensures Turned(pi, y, k) == y + (Turned(pi, x, k) - x)
  {
  }

  /** A step of more than half a turn is never recovered. */
  lemma FastStepIsLost(pi: real, angles: seq<real>, signal: seq<real>)
    requires 0.0 < pi && |angles| == |signal| >= 2
    requires pi < Abs(signal[|signal| - 1] - signal[|signal| - 2])
    ensures var r := Unwrapped(pi, angles);
            r[|r| - 1] - r[|r| - 2] != signal[|signal| - 1] - signal[|signal| - 2]
  {
    hide Wrap;
    var n := |angles| - 1;
    WrapIsCongruent(pi, angles[n] - angles[n - 1]);
  }

  /** Exactly half a turn is the boundary: the same step of +pi comes back as +pi or as -pi, depending
      on how the readings fall. */
  lemma HalfTurnIsAmbiguous(pi: real)
    requires 0.0 < pi
    ensures Unwrapped(pi, WrapAll(pi, [0.0, pi])) == [0.0, pi]
    ensures Unwrapped(pi, WrapAll(pi, [0.5 * pi, 1.5 * pi])) == [0.5 * pi, -0.5 * pi]
  {
    assert Wrap(pi, 0.0) == 0.0 && Wrap(pi, pi) == pi && Wrap(pi, -pi) == -pi;
    assert Wrap(pi, 0.5 * pi) == 0.5 * pi && Wrap(pi, -0.5 * pi) == -0.5 * pi;
    assert Wrap(pi, 1.5 * pi) == -0.5 * pi by {
      ExcessFalls(pi, 1.5 * pi, 1.5 * pi - 2.0 * pi);
      assert 1.5 * pi - 2.0 * pi == -0.5 * pi;
    }
    TwoAngles(pi, 0.0, pi);
    TwoAngles(pi, 0.5 * pi, -0.5 * pi);
    assert WrapAll(pi, [0.0, pi]) == [0.0, pi];
    assert WrapAll(pi, [0.5 * pi, 1.5 * pi]) == [0.5 * pi, -0.5 * pi];
  }

  lemma TwoAngles(pi: real, a: real, b: real)
    requires 0.0 < pi
    ensures Unwrapped(pi, [a, b]) == [a, a + Wrap(pi, b - a)]
  {
    hide Wrap;
    assert [a, b][..1] == [a];
    assert Unwrapped(pi, [a]) == [a];
  }
}
