/** The ball's friction memory as the scene keeps it, updated in place once a frame. */
module BallBody {
  import opened RealMath
  import opened BallFriction

  class BallModel {
    var slideDecel: real
    var rollDecel: real
    var switchRatio: real
    var mass: real
    var prevVelocity: V2
    var launchSpeed: real
    var rolling: bool

    constructor (slideDecel: real, rollDecel: real, switchRatio: real, mass: real)
      ensures Settings() == Params(slideDecel, rollDecel, switchRatio, mass)
      ensures Memory() == Track(V2(0.0, 0.0), 0.0, true)
    {
      this.slideDecel, this.rollDecel, this.switchRatio, this.mass := slideDecel, rollDecel, switchRatio, mass;
      prevVelocity, launchSpeed, rolling := V2(0.0, 0.0), 0.0, true;
    }

    function Settings(): Params
      reads this
    {
      Params(slideDecel, rollDecel, switchRatio, mass)
    }

    function Memory(): Track
      reads this
    {
      Track(prevVelocity, launchSpeed, rolling)
    }

    /** A deferred kick reaches the body: a new launch that starts sliding. */
    method Launch(hyp: (real, real) -> real, velocity: V2)
      modifies this`launchSpeed, this`rolling
      ensures Memory() == old(Memory()).(launch := hyp(velocity.x, velocity.y), rolling := false)
    {
      launchSpeed := hyp(velocity.x, velocity.y);
      rolling := false;
    }

    /** A placement with a velocity is a launch; without one the ball is at rest. */
    method Place(hyp: (real, real) -> real, velocity: V2, moving: bool)
      modifies this`prevVelocity, this`launchSpeed, this`rolling
      ensures moving ==> Memory() == Placed(hyp, velocity).track
      ensures !moving ==> Memory() == Track(V2(0.0, 0.0), 0.0, true)
    {
      prevVelocity := V2(0.0, 0.0);
      if moving {
        launchSpeed := hyp(velocity.x, velocity.y);
        rolling := false;
      } else {
        launchSpeed := 0.0;
        rolling := true;
      }
    }

    /** The slide phase, cut where the switch falls inside the frame, then the roll phase. */
    method SlowDown(speed0: real, dt: real) returns (speed: real)
      modifies this`rolling
      ensures (speed, rolling) == old(Slow(Settings(), launchSpeed, rolling, speed0, dt))
    {
      hide SwitchSpeed, SlowTo, Min, Roll;
      var p := Settings();
      speed := speed0;
      var remaining := dt;
      var switchSpeed := SwitchSpeed(p, launchSpeed);
      if !rolling && slideDecel > 0.0 {
        if speed > switchSpeed {
          var slideTime := Min(remaining, (speed - switchSpeed) / slideDecel);
          speed := speed - slideDecel * slideTime;
          remaining := remaining - slideTime;
          SlowAboveSwitch(p, switchSpeed, speed0, dt, slideTime, speed, remaining);
        } else {
          SlowBelowSwitch(p, switchSpeed, speed0, dt);
        }
        if speed <= switchSpeed {
          rolling := true;
        }
      } else {
        SlowRolling(p, switchSpeed, rolling, speed0, dt);
      }
      RollIs(p, rollDecel, speed, remaining);
      if remaining > 0.0 && rollDecel > 0.0 {
        speed := Max(0.0, speed - rollDecel * remaining);
      }
      assert old(Settings()) == p;
      assert rolling == Slow(p, launchSpeed, old(rolling), speed0, dt).1;
      assert speed == Slow(p, launchSpeed, old(rolling), speed0, dt).0;
    }

    /** One frame of friction on a body at (x, height y) with the measured velocity [m/s]. */
    method ApplyFriction(hyp: (real, real) -> real, x: real, y: real, velocity: V2, timestep: real) returns (impulse: V2)
      modifies this`prevVelocity, this`launchSpeed, this`rolling
      ensures Outcome(Memory(), impulse) == old(Friction(hyp, Settings(), Memory(), x, y, velocity, timestep))
    {
      hide Slow, Scale, Minus, Impact, Seconds;
      impulse := NO_IMPULSE;
      if (slideDecel <= 0.0 && rollDecel <= 0.0) || timestep <= 0.0 || x > PARK_LIMIT {
        return;
      }
      if y > GROUND_HEIGHT {
        return;
      }
      var dt := Seconds(timestep);
      var v := Scale(1000.0, velocity);
      var speed0 := hyp(v.x, v.y);
      var before := Scale(1000.0, prevVelocity);
      var impact := Impact(hyp, v, before);
      prevVelocity := velocity;
      if impact {
        launchSpeed := speed0;
        rolling := false;
        return;
      }
      if speed0 < CRAWL_SPEED {
        if speed0 > 0.0 {
          impulse := Scale(-mass, v);
        }
        launchSpeed := 0.0;
        rolling := true;
        return;
      }
      if speed0 > launchSpeed + 5.0 {
        launchSpeed := speed0;
        rolling := false;
      }
      var speed := SlowDown(speed0, dt);
      impulse := Scale(mass, Minus(Scale(speed / speed0, v), v));
    }
  }
}
