/** The transport delay of Robot::delayed: a queue that is cut to, or padded with zeros up to,
    one entry more than the number of ticks of delay. */
module DelayLine {
  import opened RealMath

  /** std::lround of a non-negative number. */
  function RoundNat(x: real): nat
    requires 0.0 <= x
  {
    (x + 0.5).Floor
  }

  function DelaySteps(deadTimeSec: real, dtSec: real): nat {
    if 0.0 < deadTimeSec && 0.0 < dtSec then
      Quotient(deadTimeSec, dtSec);
      RoundNat(deadTimeSec / dtSec)
    else
      0
  }

  function Zeros(n: nat): seq<real> {
    seq(n, i => 0.0)
  }

  /** The queue after one tick; the value in force is its front. */
  function DelayStep(buf: seq<real>, cmd: real, steps: nat): (buf': seq<real>)
    ensures |buf'| == steps + 1
  {
    var pushed := buf + [cmd];
    if |pushed| > steps + 1 then pushed[|pushed| - (steps + 1)..]
    else Zeros(steps + 1 - |pushed|) + pushed
  }

  method Delayed(buf: seq<real>, cmd: real, deadTimeSec: real, dtSec: real) returns (buf': seq<real>, front: real)
    ensures buf' == DelayStep(buf, cmd, DelaySteps(deadTimeSec, dtSec))
    ensures front == buf'[0]
  {
    var delaySteps := DelaySteps(deadTimeSec, dtSec);
    hide DelaySteps;
    var pushed := buf + [cmd];
    buf' := pushed;
    ghost var dropped := 0;
    while |buf'| > delaySteps + 1
      invariant 0 <= dropped <= |pushed| && buf' == pushed[dropped..]
      invariant |buf'| >= delaySteps + 1 || dropped == 0
    {
      buf' := buf'[1..];
      dropped := dropped + 1;
    }
    ghost var kept := buf';
    ghost var padded := 0;
    while |buf'| < delaySteps + 1
      invariant 0 <= padded && buf' == Zeros(padded) + kept
      invariant |buf'| <= delaySteps + 1 || padded == 0
    {
      ZerosGrow(padded, kept);
      buf' := [0.0] + buf';
      padded := padded + 1;
    }
    front := buf'[0];
    assert dropped > 0 ==> dropped == |pushed| - (delaySteps + 1);
    assert padded > 0 ==> padded == delaySteps + 1 - |pushed| && kept == pushed;
  }

  lemma ZerosGrow(n: nat, rest: seq<real>)
    ensures [0.0] + (Zeros(n) + rest) == Zeros(n + 1) + rest
  {
  }

  /** An entry of the queue told by its age. */
  lemma EntryByAge(buf: seq<real>, cmd: real, steps: nat, age: nat)
    requires age <= steps
    ensures DelayStep(buf, cmd, steps)[steps - age]
         == if age == 0 then cmd else if age <= |buf| then buf[|buf| - age] else 0.0
  {
  }

  // --- the delay line over a whole run since reset --------------------------------------------

  function DelayRun(cmds: seq<real>, steps: seq<nat>): seq<real>
    requires |cmds| == |steps|
  {
    if cmds == [] then []
    else
      var n := |cmds| - 1;
      DelayStep(DelayRun(cmds[..n], steps[..n]), cmds[n], steps[n])
  }

  /** The command pushed `age` ticks before the newest one is still in the queue: at every tick
      since, the delay was long enough to keep it. */
  ghost predicate Retained(steps: seq<nat>, age: nat) {
    && age < |steps|
    && forall i :: |steps| - 1 - age <= i < |steps| ==> i - (|steps| - 1 - age) <= steps[i]
  }

  lemma RetainedStep(steps: seq<nat>, age: nat)
    requires 0 < |steps| && 0 < age
    ensures var n := |steps| - 1;
            Retained(steps, age) <==> Retained(steps[..n], age - 1) && age <= steps[n]
    ensures Retained(steps, age) ==> age < |steps| && age - 1 <= steps[|steps| - 2]
  {
    var n := |steps| - 1;
    if Retained(steps[..n], age - 1) && age <= steps[n] {
      forall i | n - age <= i < |steps| ensures i - (n - age) <= steps[i] {
        assert i < n ==> steps[..n][i] == steps[i];
      }
    }
    if Retained(steps, age) {
      forall i | n - age <= i < n ensures i - (n - age) <= steps[..n][i] {
        assert steps[..n][i] == steps[i];
      }
    }
  }

  /** Delay-line semantics: after any run of commands and delays since reset the queue is one longer
      than the last delay, and the entry of each age is the command pushed that many ticks ago if it
      was retained throughout, and zero otherwise. */
  lemma {:induction false} DelayContents(cmds: seq<real>, steps: seq<nat>, age: nat)
    requires |cmds| == |steps| > 0 && age <= steps[|steps| - 1]
    ensures var n := |steps| - 1;
            var buf := DelayRun(cmds, steps);
            && |buf| == steps[n] + 1
            && buf[steps[n] - age] == if Retained(steps, age) then cmds[n - age] else 0.0
  {
    hide DelayStep, DelayRun, Retained;
    var n := |steps| - 1;
    var prev := DelayRun(cmds[..n], steps[..n]);
    DelayRunStep(cmds, steps);
    EntryByAge(prev, cmds[n], steps[n], age);
    if age == 0 {
      NewestRetained(steps);
    } else {
      RetainedStep(steps, age);
      if n == 0 {
        assert !Retained(steps, age);
      } else if age - 1 <= steps[n - 1] {
        DelayContents(cmds[..n], steps[..n], age - 1);
        assert prev[|prev| - age] == prev[steps[n - 1] - (age - 1)];
        assert Retained(steps, age) ==> cmds[..n][n - age] == cmds[n - age];
      } else {
        DelayContents(cmds[..n], steps[..n], 0);
      }
    }
  }

  lemma DelayRunStep(cmds: seq<real>, steps: seq<nat>)
    requires |cmds| == |steps| > 0
    ensures var n := |cmds| - 1;
            var prev := DelayRun(cmds[..n], steps[..n]);
            DelayRun(cmds, steps) == DelayStep(prev, cmds[n], steps[n]) && (n == 0 ==> prev == [])
  {
  }

  lemma NewestRetained(steps: seq<nat>)
    requires 0 < |steps|
    ensures Retained(steps, 0)
  {
  }

  function Output(cmds: seq<real>, steps: seq<nat>): real
    requires |cmds| == |steps| > 0
  {
    DelayRun(cmds, steps)[0]
  }

  /** What comes out is the command of exactly `delay` ticks ago when it is still in the queue, and
      zero when it is not: never a command of another age. */
  lemma OutputIsDelayedCommand(cmds: seq<real>, steps: seq<nat>)
    requires |cmds| == |steps| > 0
    ensures var n := |steps| - 1;
            Output(cmds, steps) == if Retained(steps, steps[n]) then cmds[n - steps[n]] else 0.0
  {
    DelayContents(cmds, steps, steps[|steps| - 1]);
  }

  /** With a constant delay the line is an exact delay, filled with zeros at the start. */
  lemma ConstantDelay(cmds: seq<real>, steps: seq<nat>, delay: nat)
    requires |cmds| == |steps| > 0
    requires forall i :: 0 <= i < |steps| ==> steps[i] == delay
    ensures Output(cmds, steps) == if delay < |cmds| then cmds[|cmds| - 1 - delay] else 0.0
  {
    OutputIsDelayedCommand(cmds, steps);
    if delay < |cmds| {
      assert Retained(steps, delay);
    }
  }

  /** A delay that grows by two or more ticks at once puts out zero at that tick. */
  lemma GrowingDelayEmitsZero(cmds: seq<real>, steps: seq<nat>)
    requires |cmds| == |steps| >= 2
    requires steps[|steps| - 2] + 2 <= steps[|steps| - 1]
    ensures Output(cmds, steps) == 0.0
  {
    OutputIsDelayedCommand(cmds, steps);
    RetainedStep(steps, steps[|steps| - 1]);
  }

  /** The three axes share dead time and tick, so they put out commands of one and the same tick,
      or all zeros. */
  lemma AxesShareTheTick(tangent: seq<real>, normal: seq<real>, angular: seq<real>, steps: seq<nat>)
    requires |tangent| == |normal| == |angular| == |steps| > 0
    ensures (exists k :: 0 <= k < |steps| && k == |steps| - 1 - steps[|steps| - 1]
               && Output(tangent, steps) == tangent[k]
               && Output(normal, steps) == normal[k]
               && Output(angular, steps) == angular[k])
            || (Output(tangent, steps) == 0.0 && Output(normal, steps) == 0.0 && Output(angular, steps) == 0.0)
  {
    OutputIsDelayedCommand(tangent, steps);
    OutputIsDelayedCommand(normal, steps);
    OutputIsDelayedCommand(angular, steps);
    var k := |steps| - 1 - steps[|steps| - 1];
    if Retained(steps, steps[|steps| - 1]) {
      assert Output(tangent, steps) == tangent[k];
    }
  }
}
