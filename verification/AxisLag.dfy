/** First-order lag with separate acceleration and deceleration caps on one axis
    (Robot::advanceAxis). The exponential is the library's: `lag(dt, tau)` stands for
    1 - exp(-dt / tau), of which only 0 < lag < 1 is used. */
module AxisLag {
  import opened RealMath

  ghost predicate IsLag(lag: (real, real) -> real) {
    forall dt: real, tau: real :: 0.0 < dt && 0.0 < tau ==> 0.0 < lag(dt, tau) < 1.0
  }

  function Alpha(lag: (real, real) -> real, tau: real, dt: real): real {
    if tau > 0.0 then lag(dt, tau) else 1.0
  }

  /** Where the lag alone would put the axis. */
  function Lagged(lag: (real, real) -> real, applied: real, target: real, tau: real, dt: real): real {
    applied + Alpha(lag, tau, dt) * (target - applied)
  }

  function CapFor(applied: real, next: real, accelLimit: real, decelLimit: real): real {
    if Abs(next) > Abs(applied) then accelLimit else decelLimit
  }

  function Capped(applied: real, next: real, limit: real, dt: real): real {
    if limit > 0.0 && Abs(next - applied) > limit * dt
    then applied + CopySign(limit * dt, next - applied)
    else next
  }

  function AdvanceAxis(lag: (real, real) -> real, applied: real, target: real, tau: real,
                       accelLimit: real, decelLimit: real, dt: real): real {
    var next := Lagged(lag, applied, target, tau, dt);
    Capped(applied, next, CapFor(applied, next, accelLimit, decelLimit), dt)
  }

  function AxisRun(lag: (real, real) -> real, applied: real, target: real, tau: real,
                   accelLimit: real, decelLimit: real, ticks: seq<real>): real {
    if ticks == [] then applied
    else
      AdvanceAxis(lag, AxisRun(lag, applied, target, tau, accelLimit, decelLimit, ticks[..|ticks| - 1]),
                  target, tau, accelLimit, decelLimit, ticks[|ticks| - 1])
  }

  function Pow(b: real, n: nat): real {
    if n == 0 then 1.0 else b * Pow(b, n - 1)
  }

  ghost predicate Between(a: real, x: real, b: real) {
    a <= x <= b || b <= x <= a
  }

  lemma AlphaRange(lag: (real, real) -> real, tau: real, dt: real)
    requires IsLag(lag) && 0.0 < dt
    ensures 0.0 < Alpha(lag, tau, dt) <= 1.0
  {
  }

  lemma Blend(x: real, y: real, a: real)
    requires 0.0 <= a <= 1.0
    ensures var z := x + a * (y - x);
            Between(x, z, y) && y - z == (1.0 - a) * (y - x)
  {
  }

  lemma LaggedBetween(lag: (real, real) -> real, applied: real, target: real, tau: real, dt: real)
    requires IsLag(lag) && 0.0 < dt
    ensures Between(applied, Lagged(lag, applied, target, tau, dt), target)
    ensures target - Lagged(lag, applied, target, tau, dt) == (1.0 - Alpha(lag, tau, dt)) * (target - applied)
  {
    AlphaRange(lag, tau, dt);
    hide Alpha, IsLag, Between;
    Blend(applied, target, Alpha(lag, tau, dt));
  }

  lemma CappedBetween(applied: real, next: real, limit: real, dt: real)
    requires 0.0 < dt
    ensures Between(applied, Capped(applied, next, limit, dt), next)
    ensures 0.0 < limit ==>
              && Abs(Capped(applied, next, limit, dt) - applied) <= limit * dt
              && (Capped(applied, next, limit, dt) == next || Abs(Capped(applied, next, limit, dt) - applied) == limit * dt)
  {
    if 0.0 < limit {
      ProductPositive(limit, dt);
    }
  }

  /** A tick never overshoots the target, never raises the error, and with a limit on acceleration
      never raises the magnitude by more than accelLimit * dt. */
  lemma AxisTickSafe(lag: (real, real) -> real, applied: real, target: real, tau: real,
                     accelLimit: real, decelLimit: real, dt: real)
    requires IsLag(lag) && 0.0 < dt
    ensures var next := AdvanceAxis(lag, applied, target, tau, accelLimit, decelLimit, dt);
            && Between(applied, next, target)
            && Abs(target - next) <= Abs(target - applied)
            && (0.0 < accelLimit ==> Abs(next) <= Abs(applied) + accelLimit * dt)
  {
    hide Lagged, Capped, IsLag;
    var raw := Lagged(lag, applied, target, tau, dt);
    var limit := CapFor(applied, raw, accelLimit, decelLimit);
    LaggedBetween(lag, applied, target, tau, dt);
    CappedBetween(applied, raw, limit, dt);
    if 0.0 < accelLimit {
      ProductPositive(accelLimit, dt);
    }
  }

  /** The limit lets the axis move at the rate m; a limit of 0 is none. */
  predicate Allows(limit: real, m: real) {
    limit <= 0.0 || m <= limit
  }

  /** Each tick either follows the lag exactly or takes a full capped step off the error; `m` is
      any rate both limits allow. */
  lemma AxisTickProgress(lag: (real, real) -> real, applied: real, target: real, tau: real,
                         accelLimit: real, decelLimit: real, dt: real, m: real)
    requires IsLag(lag) && 0.0 < dt && 0.0 < m && Allows(accelLimit, m) && Allows(decelLimit, m)
    ensures var next := AdvanceAxis(lag, applied, target, tau, accelLimit, decelLimit, dt);
            || Abs(target - next) == (1.0 - Alpha(lag, tau, dt)) * Abs(target - applied)
            || Abs(target - next) <= Abs(target - applied) - m * dt
  {
    hide Lagged, IsLag, Alpha, Capped, Abs, Between;
    var raw := Lagged(lag, applied, target, tau, dt);
    var limit := CapFor(applied, raw, accelLimit, decelLimit);
    LaggedBetween(lag, applied, target, tau, dt);
    assert Allows(limit, m);
    if Capped(applied, raw, limit, dt) == raw {
      AlphaRange(lag, tau, dt);
      AbsScaled(1.0 - Alpha(lag, tau, dt), target - applied, target - raw);
    } else {
      CappedProgress(applied, raw, target, limit, dt, m);
    }
  }

  lemma CappedProgress(applied: real, raw: real, target: real, limit: real, dt: real, m: real)
    requires Between(applied, raw, target) && 0.0 < dt && Allows(limit, m) && Capped(applied, raw, limit, dt) != raw
    ensures Abs(target - Capped(applied, raw, limit, dt)) <= Abs(target - applied) - m * dt
  {
    CappedBetween(applied, raw, limit, dt);
    CappedNeedsLimit(applied, raw, limit, dt);
    hide Capped, Abs;
    CapCovers(m, limit, dt);
    ErrorSplits(applied, Capped(applied, raw, limit, dt), target);
  }

  lemma CappedNeedsLimit(applied: real, next: real, limit: real, dt: real)
    requires Capped(applied, next, limit, dt) != next
    ensures 0.0 < limit
  {
  }

  lemma CapCovers(m: real, limit: real, dt: real)
    requires m <= limit && 0.0 < dt
    ensures m * dt <= limit * dt
  {
  }

  lemma ErrorSplits(applied: real, next: real, target: real)
    requires Between(applied, next, target)
    ensures Abs(target - next) == Abs(target - applied) - Abs(next - applied)
  {
  }

  lemma AbsScaled(k: real, x: real, y: real)
    requires 0.0 <= k && y == k * x
    ensures Abs(y) == k * Abs(x)
  {
    if 0.0 <= x {
      ProductNonNegative(k, x);
    } else {
      ProductNonNegative(k, -x);
      assert k * -x == -y;
    }
  }

  // --- convergence --------------------------------------------------------------------------

  lemma ShrinkFactor(r: real, p: real, q: real)
    requires 0.0 <= r <= 1.0 && 0.0 <= p && q == r * p
    ensures 0.0 <= q <= p
  {
  }

  lemma PowZero(r: real)
    ensures Pow(r, 0) == 1.0
  {
  }

  lemma PowShrinks(r: real, n: nat)
    requires 0.0 <= r <= 1.0 && 0.0 <= Pow(r, n)
    ensures 0.0 <= Pow(r, n + 1) <= Pow(r, n)
  {
    ShrinkFactor(r, Pow(r, n), Pow(r, n + 1));
  }

  lemma {:induction false} PowRange(r: real, n: nat)
    requires 0.0 <= r <= 1.0
    ensures 0.0 <= Pow(r, n)
  {
    hide Pow;
    if n == 0 {
      PowZero(r);
    } else {
      PowRange(r, n - 1);
      PowShrinks(r, n - 1);
    }
  }

  lemma {:induction false} PowAntitone(r: real, m: nat, n: nat)
    requires 0.0 <= r <= 1.0 && m <= n
    ensures Pow(r, n) <= Pow(r, m)
    decreases n - m
  {
    hide Pow;
    if m < n {
      PowAntitone(r, m, n - 1);
      PowRange(r, n - 1);
      PowShrinks(r, n - 1);
    }
  }

  /** Ticks no shorter than `dt` whose lag is at least `a`. */
  ghost predicate LongTicks(lag: (real, real) -> real, tau: real, ticks: seq<real>, dt: real, a: real) {
    forall i :: 0 <= i < |ticks| ==> dt <= ticks[i] && a <= Alpha(lag, tau, ticks[i])
  }

  lemma OneMoreStep(e': real, e: real, e0: real, j: nat, m: real, dt: real, tick: real)
    requires e <= e0 - j as real * (m * dt) && e' <= e - m * tick && 0.0 < m && dt <= tick
    ensures e' <= e0 - (j + 1) as real * (m * dt)
  {
    ProductMonotone(dt, tick, m);
    assert (j + 1) as real * (m * dt) == j as real * (m * dt) + m * dt;
  }

  lemma OneMoreShrink(e': real, shrink: real, r: real, e: real, n: nat, e0: real)
    requires 0.0 <= shrink <= r && 0.0 <= e <= Pow(r, n) * e0 && e' == shrink * e
    ensures e' <= Pow(r, n + 1) * e0
  {
    var p := Pow(r, n);
    assert Pow(r, n + 1) == r * p;
    hide Pow;
    ProductMonotone(shrink, r, e);
    ProductMonotone(e, p * e0, r);
    assert r * (p * e0) == (r * p) * e0;
  }

  lemma EnoughCapped(e: real, e0: real, j: nat, k: nat, step: real)
    requires e <= e0 - j as real * step && e0 <= k as real * step && k <= j && 0.0 <= step
    ensures e <= 0.0
  {
    ProductMonotone(k as real, j as real, step);
  }

  lemma EnoughShrunk(e: real, e0: real, p: real, q: real, eps: real)
    requires e <= p * e0 && p <= q && 0.0 <= e0 && q * e0 <= eps
    ensures e <= eps
  {
    ProductMonotone(p, q, e0);
  }

  /** After n ticks, of which some number j took a full capped step. */
  lemma {:induction false} ErrorAfterTicks(lag: (real, real) -> real, applied: real, target: real, tau: real,
                                           accelLimit: real, decelLimit: real, ticks: seq<real>, dt: real, a: real, m: real)
    returns (j: nat)
    requires IsLag(lag) && 0.0 < dt && 0.0 < m && Allows(accelLimit, m) && Allows(decelLimit, m)
    requires 0.0 < a <= 1.0 && LongTicks(lag, tau, ticks, dt, a)
    ensures j <= |ticks|
    ensures var e := Abs(target - AxisRun(lag, applied, target, tau, accelLimit, decelLimit, ticks));
            && e <= Pow(1.0 - a, |ticks| - j) * Abs(target - applied)
            && e <= Abs(target - applied) - j as real * (m * dt)
  {
    hide AdvanceAxis, IsLag, Alpha, Abs, Pow;
    var e0 := Abs(target - applied);
    if ticks == [] {
      j := 0;
      PowZero(1.0 - a);
    } else {
      var n := |ticks| - 1;
      var tick := ticks[n];
      j := ErrorAfterTicks(lag, applied, target, tau, accelLimit, decelLimit, ticks[..n], dt, a, m);
      var before := AxisRun(lag, applied, target, tau, accelLimit, decelLimit, ticks[..n]);
      AxisTickSafe(lag, before, target, tau, accelLimit, decelLimit, tick);
      AxisTickProgress(lag, before, target, tau, accelLimit, decelLimit, tick, m);
      var e := Abs(target - before);
      var e' := Abs(target - AdvanceAxis(lag, before, target, tau, accelLimit, decelLimit, tick));
      if e' <= e - m * tick {
        OneMoreStep(e', e, e0, j, m, dt, tick);
        j := j + 1;
      } else {
        AlphaRange(lag, tau, tick);
        AbsNonNegative(target - before);
        OneMoreShrink(e', 1.0 - Alpha(lag, tau, tick), 1.0 - a, e, n - j, e0);
      }
    }
  }

  lemma AbsNonNegative(x: real)
    ensures 0.0 <= Abs(x)
  {
  }

  /** Convergence: at a rate m that both limits allow, k capped steps are enough to cover the initial
      error and n lag steps shrink it to eps, so k + n ticks bring the error within eps - whatever the
      order in which they come. */
  lemma AxisConverges(lag: (real, real) -> real, applied: real, target: real, tau: real,
                      accelLimit: real, decelLimit: real, ticks: seq<real>, dt: real, a: real,
                      m: real, k: nat, n: nat, eps: real)
    requires IsLag(lag) && 0.0 < dt && 0.0 < m && Allows(accelLimit, m) && Allows(decelLimit, m) && 0.0 <= eps
    requires 0.0 < a <= 1.0 && LongTicks(lag, tau, ticks, dt, a)
    requires k + n <= |ticks|
    requires Abs(target - applied) <= k as real * (m * dt)
    requires Pow(1.0 - a, n) * Abs(target - applied) <= eps
    ensures Abs(target - AxisRun(lag, applied, target, tau, accelLimit, decelLimit, ticks)) <= eps
  {
    hide *;
    var e0 := Abs(target - applied);
    AbsNonNegative(target - applied);
    var e := Abs(target - AxisRun(lag, applied, target, tau, accelLimit, decelLimit, ticks));
    var j := ErrorAfterTicks(lag, applied, target, tau, accelLimit, decelLimit, ticks, dt, a, m);
    if k <= j {
      ProductPositive(m, dt);
      EnoughCapped(e, e0, j, k, m * dt);
    } else {
      PowAntitone(1.0 - a, n, |ticks| - j);
      EnoughShrunk(e, e0, Pow(1.0 - a, |ticks| - j), Pow(1.0 - a, n), eps);
    }
  }

  // --- what a change of sign is capped by ---------------------------------------------------

  /** A limit of 0 holds nothing back. */
  predicate HeldBy(step: real, limit: real, dt: real) {
    limit <= 0.0 || Abs(step) <= limit * dt
  }

  /** The source's comment says a change of sign is held by the deceleration limit. It is, exactly
      when there is none, or the lagged value does not exceed the present one in magnitude, or there
      is an acceleration limit no larger, or the step is small enough anyway. */
  lemma ReversalHeldByDecel(lag: (real, real) -> real, applied: real, target: real, tau: real,
                            accelLimit: real, decelLimit: real, dt: real)
    requires 0.0 < dt
    requires applied * Lagged(lag, applied, target, tau, dt) < 0.0
    ensures var raw := Lagged(lag, applied, target, tau, dt);
            var next := AdvanceAxis(lag, applied, target, tau, accelLimit, decelLimit, dt);
            HeldBy(next - applied, decelLimit, dt)
            <==> (decelLimit <= 0.0 || Abs(raw) <= Abs(applied) || 0.0 < accelLimit <= decelLimit
                  || Abs(raw - applied) <= decelLimit * dt)
  {
    hide Lagged, Capped, Abs;
    var raw := Lagged(lag, applied, target, tau, dt);
    var cap := CapFor(applied, raw, accelLimit, decelLimit);
    if 0.0 < cap {
      CappedExact(applied, raw, cap, dt);
    } else {
      NoCap(applied, raw, cap, dt);
    }
    if Abs(raw) > Abs(applied) {
      LimitsOrdered(Abs(raw - applied), accelLimit, decelLimit, dt, cap * dt, decelLimit * dt);
    }
  }

  /** A step cut to the acceleration limit fits the deceleration limit exactly when it would have
      fitted uncut, or that limit is no smaller. */
  lemma LimitsOrdered(x: real, accelLimit: real, decelLimit: real, dt: real, a: real, d: real)
    requires 0.0 < dt && a == accelLimit * dt && d == decelLimit * dt
    ensures (if x > a then a else x) <= d <==> accelLimit <= decelLimit || x <= d
  {
    if accelLimit <= decelLimit {
      ProductMonotone(accelLimit, decelLimit, dt);
    } else {
      ProductStrict(dt, decelLimit, accelLimit);
    }
  }

  lemma NoCap(applied: real, next: real, limit: real, dt: real)
    requires limit <= 0.0
    ensures Capped(applied, next, limit, dt) == next
  {
  }

  lemma CappedExact(applied: real, next: real, limit: real, dt: real)
    requires 0.0 < dt && 0.0 < limit
    ensures Abs(Capped(applied, next, limit, dt) - applied)
         == if Abs(next - applied) > limit * dt then limit * dt else Abs(next - applied)
  {
    ProductPositive(limit, dt);
  }

  /** A reversal that the deceleration limit does not hold: from -100 towards 1000 at once. */
  lemma ReversalBeyondDecel(lag: (real, real) -> real)
    ensures var next := AdvanceAxis(lag, -100.0, 1000.0, 0.0, 6000.0, 3000.0, 0.01);
            && next == -40.0
            && Abs(next - -100.0) > 3000.0 * 0.01
  {
    LaggedAtOnce(lag, -100.0, 1000.0, 0.01);
    hide Lagged, Capped, CapFor;
    AdvanceFrom(lag, -100.0, 1000.0, 0.0, 6000.0, 3000.0, 0.01, 1000.0);
    ReversalNumbers();
  }

  lemma LaggedAtOnce(lag: (real, real) -> real, applied: real, target: real, dt: real)
    ensures Lagged(lag, applied, target, 0.0, dt) == target
  {
    assert 1.0 * (target - applied) == target - applied;
  }

  lemma AdvanceFrom(lag: (real, real) -> real, applied: real, target: real, tau: real,
                    accelLimit: real, decelLimit: real, dt: real, next: real)
    requires next == Lagged(lag, applied, target, tau, dt)
    ensures AdvanceAxis(lag, applied, target, tau, accelLimit, decelLimit, dt)
         == Capped(applied, next, CapFor(applied, next, accelLimit, decelLimit), dt)
  {
    hide Lagged, Capped, CapFor;
  }

  lemma ReversalNumbers()
    ensures Capped(-100.0, 1000.0, CapFor(-100.0, 1000.0, 6000.0, 3000.0), 0.01) == -40.0
  {
  }
}
