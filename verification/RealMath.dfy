/** Exact real arithmetic shared by the models: clamps, planar vectors and the facts about
    `hypot` that the simulator takes from its maths library. */
module RealMath {

  datatype V2 = V2(x: real, y: real)

  function Abs(x: real): real {
    if x < 0.0 then -x else x
  }

  function Min(x: real, y: real): real {
    if x < y then x else y
  }

  function Max(x: real, y: real): real {
    if x < y then y else x
  }

  function Clamp(x: real, lo: real, hi: real): real {
    Min(Max(x, lo), hi)
  }

  /** copysign(m, s) for a magnitude m >= 0 and s != 0. */
  function CopySign(m: real, s: real): real {
    if s < 0.0 then -m else m
  }

  function Dot(a: V2, b: V2): real {
    a.x * b.x + a.y * b.y
  }

  function Plus(a: V2, b: V2): V2 {
    V2(a.x + b.x, a.y + b.y)
  }

  function Minus(a: V2, b: V2): V2 {
    V2(a.x - b.x, a.y - b.y)
  }

  function Scale(k: real, a: V2): V2 {
    V2(k * a.x, k * a.y)
  }

  function Sum(xs: seq<real>): real {
    if xs == [] then 0.0 else Sum(xs[..|xs| - 1]) + xs[|xs| - 1]
  }

  /** What the simulator relies on from the library function hypot. */
  ghost predicate IsHypot(hyp: (real, real) -> real) {
    forall x: real, y: real :: hyp(x, y) >= 0.0 && hyp(x, y) * hyp(x, y) == x * x + y * y
  }

  ghost predicate AllPositive(xs: seq<real>) {
    forall i :: 0 <= i < |xs| ==> xs[i] > 0.0
  }

  lemma ProductPositive(a: real, b: real)
    requires 0.0 < a && 0.0 < b
    ensures 0.0 < a * b
  {
  }

  lemma SquareMonotone(a: real, b: real)
    requires 0.0 <= b
    requires a * a <= b * b
    ensures a <= b
  {
    if a > b {
      ProductPositive(a - b, a + b);
    }
  }

  /** The product under its own name (squares need this form). */
  lemma NamedProductPositive(a: real, b: real, q: real)
    requires 0.0 < a && 0.0 < b && q == a * b
    ensures 0.0 < q
  {
  }

  lemma NamedProductNonNegative(a: real, b: real, q: real)
    requires 0.0 <= a && 0.0 <= b && q == a * b
    ensures 0.0 <= q
  {
  }

  lemma SquareShrinks(k: real, n: real, z: real)
    requires 0.0 <= k <= 1.0 && 0.0 <= n && z == (k * k) * n
    ensures z <= n
  {
    var q := k * k;
    NamedProductNonNegative(k, k, q);
    NamedProductNonNegative(k, 1.0 - k, k - q);
    NamedProductNonNegative(1.0 - q, n, n - z);
  }

  lemma ProductStrict(k: real, a: real, b: real)
    requires 0.0 < k && a < b
    ensures k * a < k * b
  {
    NamedProductPositive(k, b - a, k * (b - a));
    assert k * (b - a) == k * b - k * a;
  }

  lemma Cancel(k: real, a: real, b: real)
    requires 0.0 < k && k * a <= k * b
    ensures a <= b
  {
    if a > b {
      ProductPositive(k, a - b);
    }
  }

  lemma Quotient(a: real, k: real)
    requires 0.0 < k
    ensures k * (a / k) == a
    ensures 0.0 <= a ==> 0.0 <= a / k
    ensures 0.0 < a ==> 0.0 < a / k
  {
    if 0.0 <= a {
      Cancel(k, 0.0, a / k);
    }
  }

  lemma SquareEqual(a: real, b: real)
    requires 0.0 <= a && 0.0 <= b
    requires a * a == b * b
    ensures a == b
  {
    SquareMonotone(a, b);
    SquareMonotone(b, a);
  }

  lemma SameFactor(k: real, a: real, b: real)
    requires a == b
    ensures k * a == k * b
  {
  }

  lemma ProductNonNegative(a: real, b: real)
    requires 0.0 <= a && 0.0 <= b
    ensures 0.0 <= a * b
  {
  }

  lemma ProductMonotone(a: real, b: real, k: real)
    requires a <= b && 0.0 <= k
    ensures a * k <= b * k
  {
    ProductNonNegative(b - a, k);
    assert (b - a) * k == b * k - a * k;
  }

  lemma ProperFraction(a: real, k: real)
    requires 0.0 < a < k
    ensures 0.0 < a / k < 1.0
    ensures k * (a / k) == a
  {
    Quotient(a, k);
    Cancel(k, a / k, 1.0);
  }

  lemma DivMul(k: real, x: real)
    requires k != 0.0
    ensures (k * x) / k == x
  {
  }

  /** A sum of squares of scaled components is the scaled sum. */
  lemma ScaledSquares(k: real, x: real, y: real, kx: real, ky: real, q: real, n: real)
    requires kx == k * x && ky == k * y && q == k * k && n == x * x + y * y
    ensures kx * kx + ky * ky == q * n
  {
    assert kx * kx == q * (x * x);
    assert ky * ky == q * (y * y);
    assert q * n == q * (x * x) + q * (y * y);
  }

  lemma UnitFactor(q: real, n: real)
    requires 0.0 < q && q * n == q
    ensures n == 1.0
  {
  }

  lemma SquareNonNegative(x: real)
    ensures 0.0 <= x * x
  {
  }

  lemma SquareZero(x: real, q: real)
    requires q == x * x && q <= 0.0
    ensures x == 0.0
  {
    if 0.0 < x {
      NamedProductPositive(x, x, q);
    } else if x < 0.0 {
      NamedProductPositive(-x, -x, q);
    }
  }

  lemma SumOfSquaresZero(x: real, y: real)
    requires x * x + y * y <= 0.0
    ensures x == 0.0 && y == 0.0
  {
    SquareNonNegative(x);
    SquareNonNegative(y);
    SquareZero(x, x * x);
    SquareZero(y, y * y);
  }

  lemma HypotSquare(hyp: (real, real) -> real, x: real, y: real)
    requires IsHypot(hyp)
    ensures 0.0 <= hyp(x, y) && hyp(x, y) * hyp(x, y) == x * x + y * y
  {
  }

  lemma HypotIs(hyp: (real, real) -> real, x: real, y: real, h: real)
    requires IsHypot(hyp)
    requires 0.0 <= h && h * h == x * x + y * y
    ensures hyp(x, y) == h
  {
    SquareEqual(hyp(x, y), h);
  }

  lemma HypotScale(hyp: (real, real) -> real, k: real, d: V2, kx: real, ky: real)
    requires IsHypot(hyp)
    requires 0.0 <= k && kx == k * d.x && ky == k * d.y
    ensures hyp(kx, ky) == k * hyp(d.x, d.y)
  {
    var h := hyp(d.x, d.y);
    var kh := k * h;
    HypotSquare(hyp, d.x, d.y);
    ScaledSquares(k, d.x, d.y, kx, ky, k * k, h * h);
    assert kh * kh == (k * k) * (h * h);
    ProductNonNegative(k, h);
    HypotIs(hyp, kx, ky, kh);
  }

  lemma CrossBelow(p: real, q: real, n: real, m: real, h: real, k: real)
    requires 0.0 <= h && 0.0 <= k && n == h * h && m == k * k && p * p + q * q == n * m
    ensures p <= h * k
  {
    var hk := h * k;
    NamedProductNonNegative(h, k, hk);
    assert hk * hk == n * m;
    SquareNonNegative(q);
    SquareMonotone(p, hk);
  }

  lemma Lagrange(a: real, b: real, c: real, d: real, p: real, q: real, n: real, m: real)
    requires p == a * c + b * d && q == a * d - b * c && n == a * a + b * b && m == c * c + d * d
    ensures p * p + q * q == n * m
  {
  }

  lemma SumSquare(a: real, b: real, c: real, d: real, x: real, y: real, p: real, n: real, m: real)
    requires x == a - c && y == b - d && p == -a * c + -b * d && n == a * a + b * b && m == c * c + d * d
    ensures x * x + y * y == n + m + 2.0 * p
  {
  }

  /** The triangle inequality for the difference of two vectors. */
  lemma Triangle(hyp: (real, real) -> real, a: real, b: real, c: real, d: real, x: real, y: real)
    requires IsHypot(hyp) && x == a - c && y == b - d
    ensures hyp(x, y) <= hyp(a, b) + hyp(c, d)
  {
    HypotSquare(hyp, a, b);
    HypotSquare(hyp, c, d);
    HypotSquare(hyp, x, y);
    hide IsHypot;
    var h, k := hyp(a, b), hyp(c, d);
    var p, q, n, m := -a * c + -b * d, -a * d - -b * c, a * a + b * b, c * c + d * d;
    Lagrange(-a, -b, c, d, p, q, n, m);
    SumSquare(a, b, c, d, x, y, p, n, m);
    CrossBelow(p, q, n, m, h, k);
    SumBelow(hyp(x, y), h, k, n, m, p);
  }

  lemma SumBelow(l: real, h: real, k: real, n: real, m: real, p: real)
    requires 0.0 <= h && 0.0 <= k && n == h * h && m == k * k && p <= h * k && l * l == n + m + 2.0 * p
    ensures l <= h + k
  {
    assert (h + k) * (h + k) == n + m + 2.0 * (h * k);
    SquareMonotone(l, h + k);
  }

  lemma {:induction false} SumNonNegative(xs: seq<real>)
    requires AllPositive(xs)
    ensures 0.0 <= Sum(xs)
  {
    if xs != [] {
      SumNonNegative(xs[..|xs| - 1]);
    }
  }
}
