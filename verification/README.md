# Verified model of the robot soccer simulator's physics logic

The simulator drives up to 32 robots of two teams and one ball. This project models, in Dafny, the parts
of it that decide what happens, and proves what they promise:

- **Actuation plant** (`Robot::advanceActuation`): dead-time delay line, dead zone, gains, three caps,
  first-order lag, then either a vector limiter that splits each tick between braking and accelerating or
  a limiter per axis. Files `VectorLimiter`, `AxisLag`, `DelayLine`, `Actuation`, `ActuationRuns`,
  `ActuationDrive`, `ActuationEscapes`, `ActuationPerAxis`, `ActuationTarget`, `ActuationAxes`, `KickLimits`, and
  the class `Robot`.
- **Possession and kick protocol** (`GameObjects.qml`, `Control.qml`, `Sync.qml`): every frame the robots
  contest one ball, then take turns to release, kick or catch it. Teleports and launches take effect one
  step later, and a held ball is a body parked at x = 100000 mm. Files `Possession` (the protocol on values),
  `PossessionInvariant`, `PossessionContest`, `PossessionExclusion`, `PossessionOverlap`,
  `PossessionOverlapRun`, `PossessionRuns`, `PossessionKicks`, `PossessionHistory`, `PossessionTurns`,
  `PossessionMeasure`, `PossessionLaunch`, and the class `GameObjects`.
- **Ball friction** (`applyBallFriction`): a stepper that changes from sliding to rolling inside a frame,
  against the two-phase closed form. Files `BallProfile`, `BallFriction`, `BallTravel`, `BallKick`, `BallPush`,
  and the class `BallModel` in `BallBody`.
- **Kick rebound** (`BallContact.js`, `directKickVelocity`) against the measuring tool's own formula. Files
  `BallContact`, `Rebound`, `ReboundPlate`.
- **Angles** (`normalizeRadian`, `calcVelocity`, `unwrap`) and the **ball-model section of a robot
  parameter file** (`read_ball_model`, `write_ball_model`). Files `Angles`, `BallModelYaml` (on lines),
  `BallModelFile` (on the text of the file), `BallModelLayout` (the printed lines), `SortedStrings`.

`RealMath` holds the shared arithmetic, `Options` the option type. State that the source updates in place is a
class whose methods are proved equal to functions on values; the theorems are lemmas about those functions.

## Conventions

- Arithmetic is exact over `real`; IEEE rounding is not modelled. `lround` of a non-negative number is
  `floor(x + 0.5)`.
- `hypot` is a parameter `hyp` with `hyp(x, y) >= 0` and `hyp(x, y)^2 = x^2 + y^2` (`RealMath.IsHypot`).
  `1 - exp(-dt/tau)` is a parameter `lag` with values strictly between 0 and 1 (`AxisLag.IsLag`). A heading
  is the pair (cos w, sin w); pi is a positive number; the half angle pi/15 of the mouth window enters as
  its cosine `mouthCos`.
- The mouth window compares `d` with `110 cos(angle)` and the angle with pi/15. The model says the same with
  the distance ahead of the robot, including the case of a ball exactly at the centre, where `atan2(0, 0)`
  decides.
- What the world does is stated, not hidden: physics serves the last teleport asked for before the next
  frame, keeps the ball on its side of the 50 m limit otherwise, robots keep their mouths on the field, time
  passes (`PossessionRuns.Lawful`). Robot inputs of a frame (poses, drive, commands) are parameters.
- Text is a sequence of Unicode characters; whitespace and line breaks are those of Python's `str`. Strings
  are ordered by their characters, and `SortedStrings.Sorted` is the ascending enumeration of a set.

## Where code and comments differ

- `src/models/robot.cpp:138-139` says that a change of sign is held by the deceleration limit. Line 140 takes
  the acceleration limit when the lagged value exceeds the present one in magnitude.
  `AxisLag.ReversalHeldByDecel` says exactly when the comment is right, `AxisLag.ReversalBeyondDecel` gives
  an input for which it is not.
- With different lags of the two axes the speed can leave its limit under the vector limiter: every run from
  reset in ticks of one length keeps the limit if and only if both axes lag alike in such a tick
  (`ActuationEscapes.SpeedLimitHoldsExactlyWithEqualLags`).
- The limiter per axis, which the model uses by default, keeps each axis within the limit but not always the
  speed. Without lags it keeps the speed in ticks of one length if and only if on each axis braking has no
  limit, or stops from the speed limit within a tick, or the other axis gains little enough in a tick
  (`ActuationPerAxis.PerAxisLimitExactly`); over ticks of all lengths, if and only if neither axis limits
  braking (`ActuationPerAxis.PerAxisLimitNeedsFreeBraking`). How time is cut into ticks makes no difference to
  it if and only if braking has no limit or the same one as accelerating (`ActuationRuns.AxisPartitionExactly`).
- A kick is delivered without forgetting the velocity of the frame before. One against the ball's motion, or
  much faster, is taken for an impact in its first frame and misses that frame's friction
  (`BallKick.KickFollowsExactly`, `BallKick.ImpactCostsOneFrame`).
- A delay that grows by two or more ticks at once puts out zero for that tick
  (`DelayLine.GrowingDelayEmitsZero`).
- `placeBall` publishes the old body position. It is on the field if and only if nobody held the ball when the
  last physics step ran (`PossessionRuns.PlacingShowsOldBody`): a ball caught in the last frame is not parked
  yet, one released or kicked in it is still parked. The next frame repairs it
  (`PossessionRuns.ParkedExactlyWhileHeld`).
- With a placement outstanding while a robot holds the ball the contest and the turns look at different ball
  positions, and two robots can act in one frame. `PossessionOverlap.OverlapExactly` says for which locks,
  recharges and bounce marks, and `PossessionOverlapRun.TwoActInReachableFrame` gives a run that gets there.
- A timestep of at most 1 is read as seconds (`BallFriction.Seconds`); the friction theorems are about
  frames above 1 ms.
- The rewriter of the parameter file stops at a first-column comment inside the old section and leaves what
  follows; the reader does not stop there (`BallModelFile.FileRoundTripExactly`). In a file without such
  leftovers a model survives if and only if its flat keys are the three known ones, its other keys have the
  form parent.child, and its values are trimmed and without line breaks (`BallModelFile.PrintableExactly`).
- The simulator and the measuring tool predict different launches for a ball that leaves the plate faster
  than the kick (`Rebound.ReboundAgreement`).

## Model

| member | source | states |
|---|---|---|
| `VectorLimiter.TravelAdds` | src/models/robot.cpp:242-245 | Braking first and accelerating with the rest of the tick: the step of s + t seconds is the step of s followed by the step of t from what is then left, through the slowest point as well |
| `VectorLimiter.LimitTickAdds` | src/models/robot.cpp:238-248 | In the velocity plane a tick of s followed by one of t is one tick of s + t |
| `VectorLimiter.PartitionIndependence` | src/models/robot.cpp:233-248 | Any sequence of ticks towards a fixed destination gives the velocity of one tick of their sum |
| `VectorLimiter.ArrivesExactlyWhen` | src/models/robot.cpp:238-248 | After any ticks the destination is reached exactly if and only if their sum is at least the arrival time |
| `VectorLimiter.ArrivalTimeBound` | src/models/robot.cpp:242-245 | The arrival time is at most the distance over the weaker limit, so arrival is finite |
| `VectorLimiter.ArrivesInTime` | src/models/robot.cpp:236-248 | Whatever the ticks, the destination is reached exactly as soon as the weaker limit times their sum covers the distance |
| `VectorLimiter.TickBounds` | src/models/robot.cpp:236-248 | A tick moves along the segment to the destination by at most max(accel, decel) dt, and by at least min(accel, decel) dt unless it gets to the end; speed rises by at most accel dt and falls by at most decel dt |
| `AxisLag.AxisTickSafe` | src/models/robot.cpp:133-149 | A tick never overshoots the target, never enlarges the error, and with a limit on acceleration raises the magnitude by at most accel dt |
| `AxisLag.AxisTickProgress` | src/models/robot.cpp:135-147 | Each tick either closes at least m dt, for any rate m that both limits allow (a limit of 0 allows any), or shrinks the error by the lag factor |
| `AxisLag.ErrorAfterTicks` | src/models/robot.cpp:133-149 | After any ticks the error is bounded both by the capped steps and by the power of the lag factor, for one split of the ticks |
| `AxisLag.AxisConverges` | src/models/robot.cpp:133-149 | The error is at most any eps after ceil(error / (m dt)) + n ticks where (1 - alpha)^n error <= eps and m is a rate that both limits allow |
| `AxisLag.ReversalHeldByDecel` | src/models/robot.cpp:138-147 | For all limits, 0 being none: a change of sign is held by the deceleration limit if and only if there is none, the lagged value is no larger in magnitude, there is an acceleration limit and it is no larger, or the uncapped step is that small anyway |
| `AxisLag.ReversalBeyondDecel` | src/models/robot.cpp:138-147 | From -100 towards 1000 the step is 60 although the deceleration limit allows 30 |
| `DelayLine.Delayed` | src/models/robot.cpp:113-129 | Push, pop to length, pad with zeros: the queue is the newest delay + 1 commands, oldest first, padded with zeros, and its front comes out |
| `DelayLine.DelayContents` | src/models/robot.cpp:113-129 | After any commands and delays since reset the queue is delay + 1 long and each entry is the command of its age if that was retained at every tick since, and zero otherwise |
| `DelayLine.OutputIsDelayedCommand` | src/models/robot.cpp:113-129 | The output is the command of exactly delay ticks ago if it is retained, and zero otherwise |
| `DelayLine.ConstantDelay` | src/models/robot.cpp:113-129 | With a constant delay the output is the command of exactly that many ticks ago, and zero before the first |
| `DelayLine.GrowingDelayEmitsZero` | src/models/robot.cpp:121-128 | A delay that grows by two or more ticks puts out zero |
| `DelayLine.AxesShareTheTick` | src/models/robot.cpp:206-209 | The three axes put out commands of one and the same tick, or all three zero |
| `Actuation.PeakIsMax` | src/models/robot.cpp:160-166 | The loop's peak is the largest wheel speed in magnitude |
| `Actuation.WheelBudgetHolds` | src/models/robot.cpp:155-173 | Afterwards no wheel exceeds the budget; a twist within it is untouched; otherwise the whole twist is scaled by one factor below 1 and the fastest wheel runs exactly at the budget |
| `Actuation.TargetInDisc` | src/models/robot.cpp:210-231 | Dead zone, gains, caps and wheel budget leave a target whose speed is at most the limit |
| `ActuationTarget.RimSpeed` | src/models/robot.cpp:162-164 | A wheel's rim speed is the velocity of its place on the turning body along the direction in which it rolls |
| `ActuationTarget.TargetExactly` | src/models/robot.cpp:209-231 | The target of a command is the one twist it asks for: no turn in the dead zone, gains, turn cut to its cap with its sign, translation cut to the speed limit in its direction, then the whole twist cut until its fastest wheel is at the budget |
| `ActuationTarget.TargetWithinBudget` | src/models/robot.cpp:155-231 | No wheel of a target is faster than the wheel budget |
| `ActuationTarget.TargetUntouched` | src/models/robot.cpp:210-231 | A command outside the dead zone whose gained twist is within turn cap, speed limit and wheel budget is only gained |
| `ActuationTarget.RunFollows` | src/models/robot.cpp:201-258 | In every tick of every run from reset the plant follows the twist asked for by the command that leaves the delay line, and that is within the wheel budget and the speed limit |
| `ActuationAxes.DelayIsNearest` | src/models/robot.cpp:114-116 | The delay is the number of ticks nearest to the dead time, half a tick counting as one more, and no other |
| `ActuationAxes.DrivenAfterDeadTime` | src/models/robot.cpp:113-129 | In runs of equal ticks the plant is driven by the command of as many ticks ago as the dead time is long, to the nearest tick |
| `ActuationAxes.LagLeaves` | src/models/robot.cpp:135-136 | Without limits each tick leaves the share 1 - lag(dt, tau) of the error, over any sequence of ticks |
| `ActuationAxes.LagPartitionIndependence` | src/models/robot.cpp:135-136 | With a lag that composes as the exponential does, any ticks without limits give what one tick of their sum gives |
| `ActuationAxes.AxesRunApart` | src/models/robot.cpp:249-258 | While one command leaves the delay line, the turn, and without the vector limiter each translation axis, runs on its own to that command's target with its own time constant and limits |
| `ActuationAxes.TurnConverges` | src/models/robot.cpp:255-258 | The turn of a run comes within any eps of the target of a command that stays, after the capped and lagged ticks that its error needs |
| `Actuation.FollowKeepsDisc` | src/models/robot.cpp:233-248 | With the vector limiter and equal lags in the tick, the tick keeps the speed inside any disc that holds the present speed and the target |
| `Actuation.SpeedNeverExceedsLimit` | src/models/robot.cpp:201-248 | Vector limiter: from reset, over any commands and any ticks in each of which both axes lag alike, the speed never exceeds the limit |
| `Actuation.RunKeepsDisc` | src/models/robot.cpp:201-248 | The invariant behind it over whole runs of the vector limiter |
| `ActuationDrive.DriveRun` | src/models/robot.cpp:201-231 | With invertible gains and a wheel budget no tighter than the speed limit, any velocities within the limit can be made the targets of consecutive ticks from reset, through any dead time |
| `ActuationEscapes.SpeedLimitHoldsExactlyWithEqualLags` | src/models/robot.cpp:201-248 | Vector limiter of any strength, such a robot: every run from reset in ticks of one length keeps the speed limit if and only if both axes lag alike in such a tick |
| `ActuationEscapes.SpeedLimitOverAllTicks` | src/models/robot.cpp:201-248 | The same over ticks of all lengths: if and only if both axes lag alike in every tick |
| `ActuationPerAxis.SafeBrakingKeepsLimit` | src/models/robot.cpp:249-254 | Limiter per axis: from reset, over any commands and any ticks in each of which both axes lag alike and brake safely, the speed never exceeds the limit |
| `ActuationPerAxis.PerAxisLimitExactly` | src/models/robot.cpp:249-254 | Limiter per axis, any traction limits, no lag: every run from reset in ticks of one length keeps the speed limit if and only if both axes brake safely in such a tick |
| `ActuationPerAxis.PerAxisLimitNeedsFreeBraking` | src/models/robot.cpp:249-254 | Over ticks of all lengths: if and only if neither axis limits braking |
| `ActuationRuns.RobotPartitionIndependence` | src/models/robot.cpp:201-248 | Vector limiter without lags and dead time: holding a command over any frames gives the full twist of one frame of their sum |
| `ActuationRuns.AxisPartitionExactly` | src/models/robot.cpp:133-149 | For all limits, 0 being none: the limiter of one axis, without lag, gives the same in two ticks as in one of their sum, for all velocities, targets and ticks, if and only if it does not limit braking or its two limits are equal |
| `ActuationRuns.AxesNeverExceedLimit` | src/models/robot.cpp:201-261 | From reset, for any time constants and limits, no axis ever exceeds the speed limit |
| `ActuationRuns.LagKeepsDiscExactly` | src/models/robot.cpp:236-237 | Two lags keep every pair of points of a speed disc inside it if and only if they are equal |
| `ActuationRuns.RunQueues` | src/models/robot.cpp:201-209 | Over whole runs the three queues are the delay lines of the three command sequences |
| `ActuationRuns.OutputsOfRun` | src/models/robot.cpp:206-209 | What the plant follows at the last tick is the whole command of one earlier tick, or zero |
| `ActuationRuns.SilentUntilCommandEmerges` | src/models/robot.cpp:175-195 | After a reset the velocity is exactly zero until the first command emerges from the delay line |
| `ActuationRuns.PassThroughIsIdentity` | src/observer.cpp:155-168 | With the pass-through model the velocity is the command at once |
| `KickLimits.LimitHolds` | src/models/robot.cpp:98-109 | A limited kick is within its limit; an allowed one is untouched; a chip that is too fast is cut to exactly the limit in its direction, a straight kick to the limit with its sign; a chip stays a chip |
| `RobotClass.CommandedKick` | src/models/robot.cpp:43-49 | A chip is latched with the elevation asked for and the asked speed in mm/s, cut to the chip limit; a level kick with the asked speed and sign, cut to the straight limit |
| `RobotClass.Robot.VisionUpdate` | src/models/robot.cpp:22-38 | A command in m/s is latched in mm/s, its kick limited at once |
| `RobotClass.Robot.ControlUpdate` | src/models/robot.cpp:40-87 | A command without a kick clears the kick, one without a local velocity keeps the latched velocity |
| `RobotClass.Robot.ApplyKickLimits` | src/models/robot.cpp:98-109 | Refines the kick limits on values |
| `RobotClass.Robot.ApplyWheelSpeedBudget` | src/models/robot.cpp:155-173 | The loop over the wheels refines the budget on values |
| `RobotClass.Robot.ResetMotion` | src/models/robot.cpp:175-195 | Command, velocities and queues are those of a new robot, kick and dribbler are off |
| `RobotClass.Robot.AdvanceAxis` | src/models/robot.cpp:133-149 | Refines the axis tick on values |
| `RobotClass.Robot.AdvanceVector` | src/models/robot.cpp:238-248 | Refines the vector limiter on values |
| `RobotClass.Robot.DelayedTarget` | src/models/robot.cpp:206-231 | The three queues advance together and the target is dead zone, gains and caps of what comes out |
| `RobotClass.Robot.AdvanceActuation` | src/models/robot.cpp:201-261 | The whole new state of one tick is that of the plant on values; a tick of no length changes nothing |
| `RobotClass.ResetErasesHistory` | src/models/robot.cpp:175-261 | Two robots of one model with any histories give the same velocities for ever after both are reset |
| `BallProfile.ProfileOfValid` | proto/pb_src/ssl_vision_geometry.proto:101-114 | Launch speed, decelerations and switch ratio give a profile whose slide ends at the switch speed |
| `BallProfile.DistanceBracket` | src/qml/sim/GameObjects.qml:927-950 | Over any stretch of time the closed-form distance lies between the final and the initial speed times its length, through switch and stop |
| `BallProfile.TravelBracket` | src/qml/sim/GameObjects.qml:927-950 | Over any frames, post-frame sum <= closed-form distance <= pre-frame sum, at most launch speed times the longest frame apart |
| `BallFriction.SlowRefines` | src/qml/sim/GameObjects.qml:927-945 | One frame of the stepper walks along the closed form, and rolls afterwards exactly when the switch time has passed |
| `BallFriction.NoSpuriousImpact` | src/qml/sim/GameObjects.qml:890-904 | A ball that only slows down along a line is never taken for an impact |
| `BallFriction.FrictionRefines` | src/qml/sim/GameObjects.qml:863-967 | The impulse of a frame leaves exactly the closed-form velocity, with the launch speed and direction kept |
| `BallFriction.FrameStops` | src/qml/sim/GameObjects.qml:907-919 | A frame that measures less than 20 mm/s stops the ball, and it stays stopped |
| `BallFriction.FrictionRefinesClosedForm` | src/qml/sim/GameObjects.qml:863-967 | From a placement with a velocity, for every way of cutting time into frames, velocity, launch speed and phase are the closed form's while the last frame still measured 20 mm/s, and the ball rests from then on |
| `BallKick.KickFollowsExactly` | src/qml/sim/GameObjects.qml:808-967 | A delivered kick does so over every run of frames if and only if it is not taken for an impact on the remembered velocity of the frame before |
| `BallKick.ImpactCostsOneFrame` | src/qml/sim/GameObjects.qml:890-904 | If it is, it does so from its second frame on, as if launched one frame later |
| `BallPush.PushedBallFollows` | src/qml/sim/GameObjects.qml:919-961 | From any memory, a frame that measures a ball more than 5 mm/s above the remembered launch speed, without an impact, launches it anew at the measured speed: that frame and the whole run follow the closed form of it |
| `BallPush.SlowingBall` | src/qml/sim/GameObjects.qml:919-961 | Otherwise the launch is kept, and the ball slows along the slide and roll that lie ahead of it, switching at the set fraction of its launch speed |
| `BallPush.SparedExactlyWhenHit` | src/qml/sim/GameObjects.qml:893-905 | Friction leaves a moving ball its velocity if and only if both speeds exceed 200 mm/s and the direction reversed or the speed grew by half; the rebound is then a launch that starts sliding |
| `BallPush.CrawlingBall` | src/qml/sim/GameObjects.qml:907-917 | A frame that measures less than 20 mm/s stops the ball and forgets its launch |
| `BallPush.ActsOnGroundOnly` | src/qml/sim/GameObjects.qml:869-877 | A ball beyond x = 50000 or above y = 30, a frame of no length or two decelerations switched off: no impulse, and nothing is remembered; everywhere else friction does not depend on where the ball is |
| `BallPush.MillisecondsOrSeconds` | src/qml/sim/GameObjects.qml:879-879 | A frame of 1 to 1000 ms has the effect of the same frame given in seconds |
| `BallPush.RollingOnly` | src/qml/sim/GameObjects.qml:929-945 | With the slide switched off each frame takes the rolling deceleration off the speed, down to 0, and the phase is kept |
| `BallPush.SlidingOnly` | src/qml/sim/GameObjects.qml:929-945 | With the roll switched off a sliding ball slows down to the switch speed and keeps it |
| `BallTravel.BodyTravelBracket` | src/qml/sim/GameObjects.qml:907-960 | Over any frames the distance the body covers never exceeds the closed form's; it falls short by at most launch speed times the longest frame while the last frame still measured 20 mm/s, and after the stop by at most (20 mm/s)^2 over the weaker deceleration besides |
| `BallBody.BallModel.Launch` | src/qml/sim/GameObjects.qml:812-816 | A delivered kick is a new launch that starts sliding |
| `BallBody.BallModel.Place` | src/qml/sim/GameObjects.qml:996-1010 | A placement with a velocity is a launch, one without leaves a resting ball; earlier velocities are forgotten |
| `BallBody.BallModel.SlowDown` | src/qml/sim/GameObjects.qml:923-945 | The slide phase cut at the switch and the roll phase refine the stepper on values |
| `BallBody.BallModel.ApplyFriction` | src/qml/sim/GameObjects.qml:863-967 | Memory and impulse of a frame are those of the friction on values, parked, airborne, impact and crawl cases included |
| `BallContact.IncomingApproaches` | src/qml/sim/BallContact.js:2-14 | The chosen sample approaches the plate if and only if any does; it is the newest approaching one that does not span a collision, and the newest sample if none approaches |
| `BallContact.IncomingVelocity` | src/qml/sim/BallContact.js:2-14 | The loop with its early return finds that sample |
| `Rebound.ReboundComponents` | src/qml/sim/GameObjects.qml:698-734 | Relative to the plate point the ball leaves along the normal at least as fast as the kick, e times its approach speed faster when it came in, and along the plate with exactly the retained share |
| `Rebound.ReboundAgreement` | tools/measure_sim_spec.py:884-907 | Simulator and tool give the same launch, under z = -y, if and only if the ball approaches or leaves no faster than the kick |
| `Rebound.LaunchIsPredicted` | tools/measure_sim_spec.py:884-907 | Firmware limit, kicker efficiency and plate give the tool's launch for an approaching ball and a kick that is not backwards, the plate moving with the driven and spinning robot |
| `Rebound.DirectKickIsPredicted` | src/qml/sim/GameObjects.qml:710-734 | The whole launch of a robot that does not hold the ball, spinning or not, is the tool's prediction for one of the approaching samples as soon as there is one |
| `ReboundPlate.PlateIsRigid` | src/qml/sim/GameObjects.qml:683-695 | The plate moves as a rigid body: along the heading with the forward drive less the spin times the arm to the left, to the left with the sideways drive plus the spin times the arm ahead |
| `ReboundPlate.DirectKickExactly` | src/qml/sim/GameObjects.qml:710-734 | The launch is the one velocity whose parts along and across the moving plate are those of the kick, of restitution and of retention, for the one velocity with which the ball came: the present one for a holder, else the newest closing sample before the collision |
| `PossessionContest.ContestOptimal` | src/qml/sim/GameObjects.qml:526-562 | The fold over both teams is empty if and only if nobody may act, and otherwise the first of the best bids: kick request first, then smallest effective distance |
| `PossessionContest.WinnerExactly` | src/qml/sim/GameObjects.qml:531-562 | A robot wins if and only if it may act and outbids every other robot that may: a kick request first, then the distance, 30 mm less for the holder, then the order of the robots |
| `PossessionContest.HolderKeepsEdge` | src/qml/sim/GameObjects.qml:553-562 | A holder that may act loses to a robot that only dribbles only if it asks for no kick and that one is at least 30 mm closer |
| `PossessionContest.MouthIsInWindow` | src/qml/sim/GameObjects.qml:610-615 | The window forced open for the holder is the true one: a ball in its mouth is in its window |
| `PossessionContest.HeldBallReturns` | src/qml/sim/Control.qml:5-36 | Release, kick and loss of the contest all put the parked body into the mouth of the robot that had it |
| `PossessionTurns.WindowExactly` | src/qml/sim/GameObjects.qml:541-546 | Without angles: a ball below 40 mm is in the window if and only if it lies in the circle over the 110 mm ahead of the centre and in the cone of the mouth; exactly at the centre the heading decides |
| `PossessionTurns.KickExactly` | src/qml/sim/GameObjects.qml:616-665 | A robot kicks in its turn if and only if the ball is in its mouth, nobody else won or holds it, no lock binds it - one younger than 150 ms, with the kick still waiting, or with the ball leaving faster than 20 mm/s - and it asks to with a recharged kicker |
| `PossessionTurns.EntriesExactly` | src/qml/sim/GameObjects.qml:616-679 | After a turn lock, recharge, sensor, bounce mark and mouth collider of the robot are set if and only if it kicked, bounced, took or had the ball in its mouth as stated |
| `PossessionTurns.BallExactly` | src/qml/sim/Control.qml:5-51 | After a turn: who holds the ball, and where and with which velocity the body is to be put - parked by a catch, at rest in front of the robot by a kick, with the robot's velocity by a release |
| `PossessionLaunch.HolderLosesExactly` | src/qml/sim/GameObjects.qml:564-574 | A holder loses the ball if and only if another robot wins the contest; the ball then lies at rest in front of it, and nothing else changes |
| `PossessionLaunch.WinnerPlays` | src/qml/sim/GameObjects.qml:526-681 | The winner of the contest gets to play at its turn: it kicks if and only if it asks to and is recharged, and otherwise takes the ball unless that bounces off |
| `PossessionInvariant.TurnSound` | src/qml/sim/GameObjects.qml:577-681 | A robot's turn keeps: body parked or about to be exactly while held, only the holder's collider out, its sensor reading, no lock on it, locks dated by their kicks |
| `PossessionInvariant.ResolveSound` | src/qml/sim/GameObjects.qml:526-574 | The contest keeps it, and leaves no holder but its winner |
| `PossessionInvariant.PreparedKeeps` | src/qml/sim/GameObjects.qml:759-820 | Measuring the ball and delivering a kick change nothing about possession; a held ball is measured in the mouth, a free one where it is, unless a placement is awaited |
| `PossessionInvariant.UpdateSound` | src/qml/sim/GameObjects.qml:794-846 | A whole update keeps the invariant |
| `PossessionRuns.FrameRests` | src/qml/Main.qml:80-83 | Physics, update and publication keep it between frames, and what is published lies on the field |
| `PossessionRuns.PlaceRests` | src/qml/sim/GameObjects.qml:995-1031 | A placement keeps it if and only if it places the ball on the field |
| `PossessionRuns.ParkedExactlyWhileHeld` | src/qml/sim/Control.qml:5-51 | In every reachable state the body is parked, or about to be, exactly while a robot holds the ball; every published position lies on the field; a deferred kick is only ever given to a free ball on the field |
| `PossessionRuns.PlacingShowsOldBody` | src/qml/sim/GameObjects.qml:1012-1012 | In every run, after a frame and any number of placements, the ball's position is on the field if and only if nobody held the ball when that frame's physics ran |
| `PossessionExclusion.TurnOwn` | src/qml/sim/GameObjects.qml:577-681 | A turn changes no other robot's lock, recharge, bounce mark or sensor, and not the ball's measurement |
| `PossessionExclusion.OnlyByUnlocking` | src/qml/sim/GameObjects.qml:616-624 | A robot that may not act for the ball it sees can act only after its kick lock is lifted, which a waiting kick forbids |
| `PossessionExclusion.AtMostOneActs` | src/qml/sim/GameObjects.qml:526-681 | With no placement outstanding, or nobody holding the ball, at most one robot of both teams kicks or catches in a frame, whatever the contest decided, and unless an older kick waits a kick leaves nobody holding |
| `PossessionOverlap.OverlapExactly` | src/qml/sim/GameObjects.qml:517-681 | Some poses and inputs of the robots make two of them act in the frame if and only if a robot holds the ball, a placement is outstanding, and after the holder in turn order there are a robot that may kick, at once or by lifting its lock, and a later unlocked one that may kick or catch |
| `PossessionOverlapRun.SomeFrameOverlaps` | src/qml/sim/GameObjects.qml:794-846 | Whenever that condition holds at the clock of an update in which the placement can stay unlanded, some poses and inputs make two robots act in that update |
| `PossessionOverlapRun.TwoActInReachableFrame` | src/qml/sim/GameObjects.qml:794-846 | A lawful run from a fresh scene that gets there: a rolling placement, a slow frame in which the ball is not seen to land and a robot catches it where it was last seen, a frame in which that robot has backed 60 mm away and two others kick |
| `PossessionKicks.FrameEntries` | src/qml/sim/GameObjects.qml:577-681 | After a frame a robot's lock, recharge and bounce mark are as its own turn left them |
| `PossessionKicks.FrameRecharge` | src/qml/sim/GameObjects.qml:655-657 | A robot that kicks was recharged and its recharge starts from this frame's clock; otherwise its recharge is untouched |
| `PossessionKicks.KicksAreSpaced` | src/qml/sim/GameObjects.qml:640-657 | Over any run, placements included, two kicks of one robot are at least the recharge time apart |
| `PossessionKicks.LockedOutAfterKick` | src/qml/sim/GameObjects.qml:616-672 | From a kick until a placement, an empty mouth at its turn or a lock that may be lifted, the robot neither kicks nor catches |
| `PossessionKicks.CatchingTurn` | src/qml/sim/GameObjects.qml:645-668 | A robot that does not hold the ball catches it only below the catching speed in this and the previous frame; a faster ball bounces off and is marked |
| `PossessionKicks.BouncedOutUntilEmpty` | src/qml/sim/GameObjects.qml:49-52 | Once a ball bounced off, the robot catches nothing until its mouth was empty or a placement came |
| `PossessionKicks.OneActorPerFrame` | src/qml/sim/GameObjects.qml:794-846 | Over any run with no placement outstanding while a robot holds the ball, at most one robot acts per frame, nobody holds the ball while a kick waits, and the kick is delivered in the very next frame |
| `PossessionLaunch.TurnLaunches` | src/qml/sim/GameObjects.qml:661-665 | A turn that kicks leaves waiting the velocity that comes off the plate after the measured ball, with the kicker's efficiency on both parts of the command and the drop that friction allows |
| `PossessionLaunch.KickIsDelivered` | src/qml/sim/Control.qml:5-18 | In every such run, a robot that kicks in one frame and no placement after it: in the next frame the free body is on the field and is given the velocity that comes off that robot's plate after the ball measured in the first, upwards the commanded speed times the efficiency |
| `PossessionHistory.NothingBeforeLanding` | src/qml/sim/GameObjects.qml:771-781 | Until a placement lands nothing is measured |
| `PossessionHistory.HistoryOfRun` | src/qml/sim/GameObjects.qml:759-791 | In every run, after the last placement nothing is measured until it lands; from then on the history is the requested velocity followed by differences of consecutive frames since, newest first, at most three: none spans the jump |
| `PossessionMeasure.RetainedVelocities` | src/qml/sim/GameObjects.qml:782-790 | In every run after a landing, each of the newest three velocities leads from where one frame saw the ball to where the next saw it in that frame's time; the oldest is the requested velocity while fewer frames have passed |
| `PossessionMeasure.FrameMeasures` | src/qml/sim/GameObjects.qml:784-790 | In every run, previous position plus measured velocity times frame time is the new position; the velocity before is that of the previous frame |
| `PossessionMeasure.FrameSamples` | src/qml/sim/GameObjects.qml:759-770 | The position measured is the holder's mouth or the free body, at the frame's clock |
| `PossessionMeasure.LandsExactly` | src/qml/sim/GameObjects.qml:771-783 | A placement is seen to land if and only if the ball is within 5 mm and 50 ms of its requested motion or 250 ms have passed; the ball then has the requested velocity in this frame and the one before, and until then nothing is measured |
| `PossessionMeasure.PlacementForgets` | src/qml/sim/GameObjects.qml:995-1031 | After a placement the ball is to be put down at rest and nobody holds it, is locked, marked or reads it; no kick waits and nothing is measured |
| `PossessionMeasure.PublishedWhere` | src/qml/sim/Sync.qml:30-58 | A frame publishes the mouth of the robot that holds the ball, else the body if it is within 50000 mm, else where the frame saw the ball |
| `GameObjectsClass.GameObjects.KickBall` | src/qml/sim/Control.qml:5-18 | Refines the kick on values |
| `GameObjectsClass.GameObjects.ReleaseBall` | src/qml/sim/Control.qml:25-39 | Refines the release on values |
| `GameObjectsClass.GameObjects.DribbleBall` | src/qml/sim/Control.qml:41-51 | Refines the catch on values |
| `GameObjectsClass.GameObjects.FindWinner` | src/qml/sim/GameObjects.qml:531-562 | The two nested loops compute the contest's winner |
| `GameObjectsClass.GameObjects.ResolveBallContest` | src/qml/sim/GameObjects.qml:526-574 | Winner and loss of the ball as on values |
| `GameObjectsClass.GameObjects.MoveRobot` | src/qml/sim/GameObjects.qml:599-680 | One iteration of the robots' loop is the turn on values |
| `GameObjectsClass.GameObjects.BotMovement` | src/qml/sim/GameObjects.qml:577-681 | A team's loop is the turns of its robots in order |
| `GameObjectsClass.GameObjects.RefreshBall` | src/qml/sim/GameObjects.qml:759-791 | Measurement and its validity flag as on values |
| `GameObjectsClass.GameObjects.UpdateGameObjects` | src/qml/sim/GameObjects.qml:794-846 | The whole update as on values, the kick delivered and whether friction may use the measurement |
| `GameObjectsClass.GameObjects.PublishBall` | src/qml/sim/Sync.qml:30-58 | What is published as on values |
| `GameObjectsClass.GameObjects.FrameDone` | src/qml/Main.qml:80-83 | Update then publication is one frame of a run |
| `GameObjectsClass.GameObjects.PlaceBall` | src/qml/sim/GameObjects.qml:995-1031 | A placement with its loops over both teams as on values |
| `Angles.WrapIsCongruent` | src/utils/mathUtils.cpp:7-15 | The result lies in [-pi, pi] and differs from the input by whole turns |
| `Angles.NormalizeRadian` | src/utils/mathUtils.cpp:7-15 | Both loops end, with that result |
| `Angles.VelocityMoves` | src/utils/mathUtils.cpp:32-39 | Moving by the velocity for the time step leads from the old pose to the new one, heading included when it turned by less than half a turn |
| `Angles.Unwrap` | tools/measure_sim_spec.py:321-337 | The loop computes the unwrapped angles |
| `Angles.UnwrapRecovers` | tools/measure_sim_spec.py:321-337 | Unwrapping readings of a signal with steps below half a turn gives the signal back plus the offset of the first reading |
| `Angles.UnwrapAfterWrap` | tools/measure_sim_spec.py:321-337 | Unwrap inverts normalisation up to one constant number of turns |
| `Angles.FastStepIsLost` | tools/measure_sim_spec.py:327-333 | A step of more than half a turn is never recovered |
| `Angles.HalfTurnIsAmbiguous` | tools/measure_sim_spec.py:327-333 | A step of exactly half a turn may come back with either sign |
| `BallModelYaml.BlockReads` | tools/gen_robot_models.py:339-350 | Reading a printed section lays the whole model over what was read before, from any reader state |
| `BallModelYaml.ReadAfterWrite` | tools/gen_robot_models.py:287-350 | Reading after writing gives exactly the written model, for files with no, one or several sections, if the writer leaves no old entry behind |
| `BallModelYaml.NoCommentNoStale` | tools/gen_robot_models.py:320-336 | Without a first-column comment inside a section it leaves none |
| `BallModelYaml.RoundTripExactly` | tools/gen_robot_models.py:287-350 | On lines, the round trip holds for every printable model if and only if the writer leaves no old entry behind |
| `BallModelFile.FileRoundTripExactly` | tools/gen_robot_models.py:287-350 | Every printable model comes back from the text of a written file if and only if the writer leaves no old entry in that file |
| `BallModelFile.PrintableExactly` | tools/gen_robot_models.py:287-350 | In a file where it leaves none, a model comes back if and only if it is printable: known flat keys or parent.child keys, trimmed values without line breaks |
| `BallModelFile.FileWrite` | tools/gen_robot_models.py:320-336 | On the text of the file: every line outside the section is kept in order, and a write leaves no trace of an earlier one |
| `BallModelFile.EndedSplits` | tools/gen_robot_models.py:322-322 | Lines come back from a text in which each of them ends with the same line break, whichever it is; a carriage return with a newline is one |
| `BallModelLayout.RobotSection` | tools/gen_robot_models.py:339-350 | For all values the five parameters of a robot's ball are printed as header, known keys in fixed order indented by two, parent, and its children in ascending order indented by four |
| `BallModelYaml.WriteKeepsOutside` | tools/gen_robot_models.py:320-336 | Every line outside the section is kept in order |
| `BallModelYaml.LastWriteWins` | tools/gen_robot_models.py:320-336 | A write leaves no trace of an earlier one |
| `BallModelYaml.ReadBallModel` | tools/gen_robot_models.py:287-317 | The reading loop computes the reader on lines |
| `SortedStrings.SortedAscends` | tools/gen_robot_models.py:344-348 | The enumeration that sorting yields ascends strictly |
| `SortedStrings.LeExactly` | tools/gen_robot_models.py:344-348 | Strings are in order if and only if the first is a prefix of the second or has the smaller first differing character |
| `SortedStrings.Sort` | tools/gen_robot_models.py:344-348 | Selecting least keys one by one computes it |
| `BallModelYaml.BallYamlBlock` | tools/gen_robot_models.py:339-350 | From the model alone the printing loops compute the printed section, parents and nested keys collected and sorted on the way |
| `BallModelYaml.WriteBallModel` | tools/gen_robot_models.py:320-336 | The rewriting loops compute the rewritten lines |

## Left out

- IEEE floats: all theorems are over exact reals, so rounding in `float` and `double` is not covered.
- PhysX: contact, restitution and the exact landing of a teleport are the world of the model; only serving the last teleport and keeping the ball on its side of the field limit are assumed.
- AtMostOneActs: asks that no placement is outstanding or nobody holds the ball, because otherwise it is false (TwoActInReachableFrame); OverlapExactly is its exact condition.
- OneActorPerFrame: asks the same of every frame of the run.
- KickIsDelivered: asks the same, because with two actors in a frame the later kick overwrites the earlier one, or a catch parks the ball before it is launched.
- WinnerPlays: asks the same of the frame, because otherwise the winner's turn looks at another ball position than the contest.
- SomeFrameOverlaps: asks besides that the placement has not timed out and is slower than 700 m/s, because a placement counts as landed within 5 mm plus 50 ms of its own motion, and that radius then covers the field.
- SpeedLimitHoldsExactlyWithEqualLags: is about robots that can be told to drive at any velocity within the limit (DriveRun); a tighter wheel budget shrinks the targets and can keep the limit with unequal lags as well.
- PerAxisLimitExactly: the same, and without lags; with equal lags SafeBrakingKeepsLimit is one half of it, the other depends on the exponential.
- FrictionRefinesClosedForm: is about a body that keeps between frames the velocity it was left with, because contacts in between are physics.
- Visible spin (`ballSpin`), ball and robot models, console diagnostics: they feed nothing back.
- Teleop, mouse grabbing and `placeClothLineBall`: user interface; the last one moves the ball without telling the protocol.
- Robot replacement: its effect on poses and measured velocities is part of the arbitrary inputs of a frame.
- Robot bodies in `botMovement` (setting linear and angular velocity, `MotionControl`): the legacy path has mixed units and no clear contract.
- UDP, protobuf, settings, camera projection, minimap and field drawing: plumbing with library behaviour.
- `emitEncoderFeedback`: its wheel map is the one `applyWheelSpeedBudget` limits; noise is random and would add only the same linear map.
- `ball_travel`, `launch_for`, `ball_model_v0`, `central_rates` and the fitting code of the measuring tool: numerical search against a live run.
- `write_ball_ini`, `split_sections`, `set_keys`: further line rewriters of the same shape as the one proved.
- Parameter files on disk: the model starts from the decoded text, so encodings are not covered.
