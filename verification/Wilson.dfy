/**
 The measurement summary's rates and percentiles in exact arithmetic. The square
 root of the Wilson score is any given root of its radicand.
 */
module Wilson {
  const Z: real := 1.959963984540054

  datatype Rate = Rate(lower: int, rate: int, upper: int)

  function Ceiling(x: real): int {
    -(-x).Floor
  }

  function Proportion(count: nat, n: nat): real
    requires n > 0
  {
    count as real / n as real
  }

  function Radicand(count: nat, n: nat): real
    requires n > 0
  {
    var p, m := Proportion(count, n), n as real;
    p * (1.0 - p) / m + Z * Z / (4.0 * m * m)
  }

  /** The square root, as the arithmetic library gives it. */
  ghost predicate IsRoot(count: nat, n: nat, root: real)
    requires n > 0
  {
    root >= 0.0 && root * root == Radicand(count, n)
  }

  function Denominator(n: nat): real
    requires n > 0
  {
    1.0 + Z * Z / n as real
  }

  function Center(count: nat, n: nat): real
    requires n > 0
  {
    assert Denominator(n) > 0.0;
    (Proportion(count, n) + Z * Z / (2.0 * n as real)) / Denominator(n)
  }

  function Margin(n: nat, root: real): real
    requires n > 0
  {
    assert Denominator(n) > 0.0;
    Z * root / Denominator(n)
  }

  function WilsonRate(count: nat, n: nat, root: real): Rate
    requires n > 0
  {
    var low, high := Center(count, n) - Margin(n, root), Center(count, n) + Margin(n, root);
    Rate(
      ((if low < 0.0 then 0.0 else low) * 10_000.0).Floor,
      (count * 10_000 + n / 2) / n,
      Ceiling((if high > 1.0 then 1.0 else high) * 10_000.0))
  }

  // ---- The interval without its fractions

  /** Twice the sample count times the root. */
  function Spread(n: nat, root: real): real {
    2.0 * n as real * root
  }

  lemma Cancel(a: real, b: real)
    requires b != 0.0
    ensures a / b * b == a
  {
  }

  lemma {:induction false} SpreadSquared(count: nat, n: nat, root: real)
    requires 0 < n && count <= n && IsRoot(count, n, root)
    ensures Spread(n, root) >= 0.0
    ensures n as real * (Spread(n, root) * Spread(n, root))
         == 4.0 * count as real * (n - count) as real + n as real * (Z * Z)
  {
    var c, m, p := count as real, n as real, Proportion(count, n);
    Cancel(c, m);
    assert p * m == c;
    var a, b := p * (1.0 - p) / m, Z * Z / (4.0 * m * m);
    Cancel(p * (1.0 - p), m);
    Cancel(Z * Z, 4.0 * m * m);
    assert a * m == p * (1.0 - p);
    assert b * (4.0 * m * m) == Z * Z;
    var s := Spread(n, root);
    assert s * s == 4.0 * m * m * (root * root);
    assert root * root == a + b;
    assert s * s == 4.0 * m * (a * m) + Z * Z;
    assert m * (m * (a * m)) == (p * m) * (m - p * m);
    assert (n - count) as real == m - c;
  }

  /** Both ends over the common denominator `2 (n + z z)`. */
  lemma Ends(count: nat, n: nat, root: real)
    requires 0 < n
    ensures var c, m, s := count as real, n as real, Spread(n, root);
            && (Center(count, n) - Margin(n, root)) * (2.0 * (m + Z * Z)) == 2.0 * c + Z * Z - Z * s
            && (Center(count, n) + Margin(n, root)) * (2.0 * (m + Z * Z)) == 2.0 * c + Z * Z + Z * s
  {
    var c, m, p, d := count as real, n as real, Proportion(count, n), Denominator(n);
    Cancel(c, m);
    Cancel(Z * Z, m);
    Cancel(Z * Z, 2.0 * m);
    assert d > 0.0;
    assert d * m == m + Z * Z;
    Cancel(p + Z * Z / (2.0 * m), d);
    Cancel(Z * root, d);
    var center, margin := Center(count, n), Margin(n, root);
    assert center * d == p + Z * Z / (2.0 * m);
    assert margin * d == Z * root;
    assert center * (2.0 * (m + Z * Z)) == 2.0 * m * (center * d);
    assert margin * (2.0 * (m + Z * Z)) == 2.0 * m * (margin * d);
  }

  lemma Positive(x: real, y: real)
    requires x > 0.0 && y > 0.0
    ensures x * y > 0.0
  {
  }

  lemma CancelZero(x: real, k: real)
    requires k != 0.0 && x * k == 0.0
    ensures x == 0.0
  {
  }

  lemma ScaleStrictly(a: real, b: real, k: real)
    requires a > b && k > 0.0
    ensures a * k > b * k
  {
    Positive(a - b, k);
    assert (a - b) * k == a * k - b * k;
  }

  lemma SquareStrictly(a: real, b: real)
    requires a > b >= 0.0
    ensures a * a > b * b
  {
    Positive(a - b, a + b);
    assert (a - b) * (a + b) == a * a - b * b;
  }

  /** Nonnegative numbers are ordered as their squares. */
  lemma SquareOrder(a: real, b: real)
    requires a >= 0.0 && b >= 0.0 && a * a <= b * b
    ensures a <= b
  {
    if a > b {
      SquareStrictly(a, b);
    }
  }

  /** A common positive factor can be cancelled from an order. */
  lemma CancelOrder(a: real, b: real, k: real)
    requires k > 0.0 && a * k <= b * k
    ensures a <= b
  {
    if a > b {
      ScaleStrictly(a, b, k);
    }
  }

  /** What the spread's square is, in real terms only. */
  ghost predicate Squared(c: real, m: real, s: real) {
    s >= 0.0 && m * (s * s) == 4.0 * c * (m - c) + m * (Z * Z)
  }

  lemma SpreadSquare(count: nat, n: nat, root: real)
    requires 0 < n && count <= n && IsRoot(count, n, root)
    ensures Squared(count as real, n as real, Spread(n, root))
  {
    SpreadSquared(count, n, root);
    assert (n - count) as real == n as real - count as real;
  }

  lemma NonNegative(x: real, y: real)
    requires x >= 0.0 && y >= 0.0
    ensures x * y >= 0.0
  {
  }

  lemma AtLeast(z: real, c: real, e: real, m: real, s: real)
    requires 0.0 <= c && 0.0 <= e && 0.0 < m && 0.0 <= s && 0.0 <= z
    requires m * (s * s) == 4.0 * (c * e) + m * (z * z)
    ensures s >= z
  {
    NonNegative(c, e);
    CancelOrder(z * z, s * s, m);
    SquareOrder(z, s);
  }

  /** What the square of `z s` is, and what that of its bound is. */
  lemma BoundSquares(z: real, c: real, e: real, m: real, s: real)
    requires m == c + e && m * (s * s) == 4.0 * (c * e) + m * (z * z)
    ensures var t := 2.0 * c + z * z;
            t * t * m - (z * s) * (z * s) * m == 4.0 * (c * c) * m + 4.0 * ((c * z) * (c * z))
  {
    var q, t := z * z, 2.0 * c + z * z;
    assert (z * s) * (z * s) * m == q * (m * (s * s));
    assert q * (m * (s * s)) == 4.0 * (q * (c * e)) + q * (m * q);
    assert t * t == 4.0 * (c * c) + 4.0 * (c * q) + q * q;
    assert t * t * m == 4.0 * (c * c) * m + 4.0 * (c * q) * m + q * q * m;
    assert (c * q) * m == (c * q) * c + (c * q) * e;
    assert (c * q) * c == (c * z) * (c * z);
    assert (c * q) * e == q * (c * e);
    assert q * q * m == q * (m * q);
  }

  lemma AtMostBound(z: real, c: real, e: real, m: real, s: real)
    requires 0.0 <= c && 0.0 <= e && 0.0 < m && 0.0 <= s && 0.0 <= z && m == c + e
    requires m * (s * s) == 4.0 * (c * e) + m * (z * z)
    ensures z * s <= 2.0 * c + z * z
  {
    var t := 2.0 * c + z * z;
    BoundSquares(z, c, e, m, s);
    NonNegative(c, c);
    NonNegative(c * c, m);
    NonNegative(c, z);
    NonNegative(c * z, c * z);
    CancelOrder((z * s) * (z * s), t * t, m);
    NonNegative(z, s);
    NonNegative(z, z);
    SquareOrder(z * s, t);
  }

  /** The spread is at least z, and z times it at most `2 c + z z`. */
  lemma SpreadBounds(c: real, m: real, s: real)
    requires 0.0 <= c <= m && 0.0 < m && Squared(c, m, s)
    ensures s >= Z && Z * s <= 2.0 * c + Z * Z
  {
    assert Z >= 0.0;
    hide Z;
    assert 4.0 * c * (m - c) == 4.0 * (c * (m - c));
    AtLeast(Z, c, m - c, m, s);
    AtMostBound(Z, c, m - c, m, s);
  }

  /** The proportion of the complement has the same root. */
  lemma RootOfComplement(count: nat, n: nat, root: real)
    requires 0 < n && count <= n
    ensures Proportion(n - count, n) == 1.0 - Proportion(count, n)
    ensures IsRoot(n - count, n, root) <==> IsRoot(count, n, root)
  {
    var m := n as real;
    Cancel(count as real, m);
    Cancel((n - count) as real, m);
    assert (n - count) as real == m - count as real;
    var p, q := Proportion(count, n), Proportion(n - count, n);
    CancelZero(q - (1.0 - p), m);
    assert q * (1.0 - q) == p * (1.0 - p);
    assert Radicand(n - count, n) == Radicand(count, n);
  }

  /** Ends over a common denominator mirror each other when their numerators do. */
  lemma Mirrored(x: real, y: real, k: real, a: real, b: real)
    requires k > 0.0 && x * k == a && y * k == b && a + b == k
    ensures x == 1.0 - y
  {
    CancelZero(x - (1.0 - y), k);
  }

  /** The lower end lies between zero and the proportion. */
  lemma LowerEnd(low: real, p: real, c: real, m: real, s: real)
    requires 0.0 <= c <= m && 0.0 < m && Squared(c, m, s)
    requires low * (2.0 * (m + Z * Z)) == 2.0 * c + Z * Z - Z * s && p * m == c
    ensures 0.0 <= low <= p
  {
    SpreadBounds(c, m, s);
    CancelOrder(0.0, low, 2.0 * (m + Z * Z));
    BelowProportion(c, m, s);
    Below(low, p, c, m, 2.0 * (m + Z * Z), 2.0 * c + Z * Z - Z * s);
  }

  /** The upper end mirrors the lower one. */
  lemma UpperEnd(high: real, p: real, c: real, m: real, s: real)
    requires 0.0 <= c <= m && 0.0 < m && Squared(c, m, s)
    requires high * (2.0 * (m + Z * Z)) == 2.0 * c + Z * Z + Z * s && p * m == c
    ensures p <= high <= 1.0
  {
    LowerEnd(1.0 - high, 1.0 - p, m - c, m, s);
  }

  /** The scaled equations of an interval's ends and its proportion. */
  ghost predicate Scaled(low: real, high: real, p: real, c: real, m: real, s: real) {
    && 0.0 <= c <= m && 0.0 < m && Squared(c, m, s)
    && low * (2.0 * (m + Z * Z)) == 2.0 * c + Z * Z - Z * s
    && high * (2.0 * (m + Z * Z)) == 2.0 * c + Z * Z + Z * s
    && p * m == c
  }

  lemma ProportionTimes(count: nat, n: nat)
    requires n > 0
    ensures Proportion(count, n) * n as real == count as real
  {
    Cancel(count as real, n as real);
  }

  lemma IntervalScaled(count: nat, n: nat, root: real)
    requires 0 < n && count <= n && IsRoot(count, n, root)
    ensures Scaled(
              Center(count, n) - Margin(n, root), Center(count, n) + Margin(n, root), Proportion(count, n),
              count as real, n as real, Spread(n, root))
  {
    hide Radicand, Center, Margin, Proportion, Spread, Denominator, IsRoot, Squared;
    SpreadSquare(count, n, root);
    Ends(count, n, root);
    ProportionTimes(count, n);
  }

  /** The clamps never bite, and the interval holds the proportion. */
  lemma Interval(count: nat, n: nat, root: real)
    requires 0 < n && count <= n && IsRoot(count, n, root)
    ensures 0.0 <= Center(count, n) - Margin(n, root) <= Proportion(count, n)
    ensures Proportion(count, n) <= Center(count, n) + Margin(n, root) <= 1.0
  {
    hide Radicand, Center, Margin, Proportion, Squared, Spread;
    var c, m, s, p := count as real, n as real, Spread(n, root), Proportion(count, n);
    IntervalScaled(count, n, root);
    LowerEnd(Center(count, n) - Margin(n, root), p, c, m, s);
    UpperEnd(Center(count, n) + Margin(n, root), p, c, m, s);
  }

  lemma Below(low: real, p: real, c: real, m: real, k: real, x: real)
    requires m > 0.0 && k > 0.0 && low * k == x && p * m == c && x * m <= c * k
    ensures low <= p
  {
    assert low * (k * m) == (low * k) * m;
    assert p * (k * m) == (p * m) * k;
    Positive(k, m);
    CancelOrder(low, p, k * m);
  }

  lemma BelowProportion(c: real, m: real, s: real)
    requires 0.0 <= c <= m && 0.0 < m && Squared(c, m, s)
    ensures (2.0 * c + Z * Z - Z * s) * m <= c * (2.0 * (m + Z * Z))
  {
    var d := m - 2.0 * c;
    if d >= 0.0 {
      assert (m * s) * (m * s) == m * (4.0 * c * (m - c)) + m * (m * (Z * Z));
      assert (Z * d) * (Z * d) == (Z * Z) * (m * m) - (Z * Z) * (4.0 * (c * (m - c)));
      assert c * (m - c) >= 0.0;
      assert m * (4.0 * c * (m - c)) >= 0.0;
      SquareOrder(Z * d, m * s);
      assert Z * (Z * d) <= Z * (m * s);
    } else {
      assert Z * (m * s) >= 0.0;
      assert Z * (Z * d) <= 0.0;
    }
    assert c * (2.0 * (m + Z * Z)) - (2.0 * c + Z * Z - Z * s) * m == Z * (m * s) - Z * (Z * d);
  }

  // ---- The score equation

  /** Of `m` samples a proportion `p` is z standard errors of `x` away from `x`. */
  ghost predicate OnScore(p: real, m: real, x: real) {
    var z := 1.959963984540054;
    m * ((p - x) * (p - x)) == z * z * (x * (1.0 - x))
  }

  /** Both ends solve the score equation of the proportion. */
  lemma ScoreEquation(count: nat, n: nat, root: real)
    requires 0 < n && count <= n && IsRoot(count, n, root)
    ensures OnScore(Proportion(count, n), n as real, Center(count, n) - Margin(n, root))
    ensures OnScore(Proportion(count, n), n as real, Center(count, n) + Margin(n, root))
  {
    hide OnScore, Radicand, Center, Margin, Proportion, Spread;
    IntervalScaled(count, n, root);
    ScoreEnds(
      Center(count, n) - Margin(n, root), Center(count, n) + Margin(n, root), Proportion(count, n),
      count as real, n as real, Spread(n, root));
  }

  lemma ScoreEnds(low: real, high: real, p: real, c: real, m: real, s: real)
    requires Scaled(low, high, p, c, m, s)
    ensures OnScore(p, m, low) && OnScore(p, m, high)
  {
    assert Z * (-s) == -(Z * s) && (-s) * (-s) == s * s;
    Score(Z, c, m, -s, low, p);
    Score(Z, c, m, s, high, p);
  }

  lemma Score(z: real, c: real, m: real, t: real, x: real, p: real)
    requires z > 0.0 && m > 0.0 && p * m == c
    requires m * (t * t) == 4.0 * c * (m - c) + m * (z * z)
    requires x * (2.0 * (m + z * z)) == 2.0 * c + z * z + z * t
    ensures m * ((p - x) * (p - x)) == z * z * (x * (1.0 - x))
  {
    var q, u := z * z, x * (2.0 * (m + z * z));
    var b := 2.0 * c + q;
    var e := (m + q) * m * (x * x) - b * (m * x) + c * c;
    assert (z * t) * (z * t) == q * (t * t);
    assert u * u - 2.0 * b * u == (z * t) * (z * t) - b * b;
    assert m * (u * u - 2.0 * b * u) == q * (m * (t * t)) - m * (b * b);
    Expanded(c, m, q);
    assert m * (u * u - 2.0 * b * u) + 4.0 * (m + q) * (c * c) == 0.0;
    Quadratic(m, q, b, c, x);
    assert 4.0 * (m + q) * e == 0.0;
    Positive(z, z);
    CancelZero(e, 4.0 * (m + q));
    CancelZero(m * ((p - x) * (p - x)) - q * (x * (1.0 - x)), m) by {
      assert (m * ((p - x) * (p - x))) * m == (p * m - m * x) * (p * m - m * x);
      assert (c - m * x) * (c - m * x) == c * c - 2.0 * c * (m * x) + m * m * (x * x);
      assert (q * (x * (1.0 - x))) * m == q * (m * x) - q * m * (x * x);
      assert b * (m * x) == 2.0 * c * (m * x) + q * (m * x);
      assert (m + q) * m * (x * x) == m * m * (x * x) + q * m * (x * x);
    }
  }

  lemma Expanded(c: real, m: real, q: real)
    ensures q * (4.0 * c * (m - c) + m * q) - m * ((2.0 * c + q) * (2.0 * c + q)) + 4.0 * (m + q) * (c * c) == 0.0
  {
  }

  lemma Quadratic(m: real, q: real, b: real, c: real, x: real)
    ensures var u := x * (2.0 * (m + q));
            (m * (u * u - 2.0 * b * u) + 4.0 * (m + q) * (c * c)
             == 4.0 * (m + q) * ((m + q) * m * (x * x) - b * (m * x) + c * c))
  {
  }

  // ---- Basis points

  lemma FloorMonotone(x: real, y: real)
    requires x <= y
    ensures x.Floor <= y.Floor && Ceiling(x) <= Ceiling(y)
  {
  }

  lemma DivisionBounds(a: nat, n: nat)
    requires n > 0
    ensures a / n * n <= a < (a / n + 1) * n
  {
    assert a == a / n * n + a % n;
  }

  lemma CancelFactor(a: int, b: int, n: nat)
    requires a * n < b * n
    ensures a < b
  {
    if a >= b {
      IntegerScale(b, a, n);
    }
  }

  lemma IntegerScale(a: int, b: int, n: nat)
    requires a <= b
    ensures a * n <= b * n
  {
    assert (b - a) * n >= 0;
  }

  lemma ScaleOrder(a: real, b: real, k: real)
    requires a <= b && k > 0.0
    ensures a * k <= b * k
  {
    assert (b - a) * k >= 0.0;
  }

  /** Floor and ceiling of a fraction, without the fraction. */
  lemma FloorScaled(x: real, a: int, n: nat)
    requires 0 < n && x * n as real == a as real
    ensures x.Floor * n <= a <= Ceiling(x) * n
  {
    IntegerProduct(x.Floor, n);
    IntegerProduct(Ceiling(x), n);
    ScaleOrder(x.Floor as real, x, n as real);
    ScaleOrder(x, Ceiling(x) as real, n as real);
  }

  lemma IntegerProduct(f: int, n: nat)
    ensures (f * n) as real == f as real * n as real
  {
  }

  /** The rate is the proportion rounded half up: between its floor and its ceiling. */
  lemma RateRounds(count: nat, n: nat)
    requires 0 < n && count <= n
    ensures var rate := (count * 10_000 + n / 2) / n;
            && 0 <= rate <= 10_000
            && (Proportion(count, n) * 10_000.0).Floor <= rate <= Ceiling(Proportion(count, n) * 10_000.0)
  {
    var x := Proportion(count, n) * 10_000.0;
    ScaledProportion(count, n);
    FloorScaled(x, count * 10_000, n);
    RoundedBetween(x.Floor, count * 10_000, Ceiling(x), n);
    RoundedBetween(0, count * 10_000, 10_000, n);
  }

  lemma ScaledProportion(count: nat, n: nat)
    requires 0 < n
    ensures Proportion(count, n) * 10_000.0 * n as real == (count * 10_000) as real
  {
    Cancel(count as real, n as real);
  }

  /** Rounding half up stays between any two whole bounds. */
  lemma RoundedBetween(low: int, a: nat, high: int, n: nat)
    requires 0 < n && low * n <= a <= high * n
    ensures low <= (a + n / 2) / n <= high
  {
    var rate := (a + n / 2) / n;
    DivisionBounds(a + n / 2, n);
    CancelFactor(low, rate + 1, n);
    Distribute(high, n);
    CancelFactor(rate, high + 1, n);
  }

  lemma Distribute(a: int, n: nat)
    ensures (a + 1) * n == a * n + n
  {
  }

  /** Half up: the remainder is at most half of the divisor, and a half is never left over. */
  lemma RoundedHalfUp(a: nat, n: nat)
    requires 0 < n
    ensures 2 * (a - (a + n / 2) / n * n) < n && 2 * (a - (a + n / 2) / n * n) + n >= 0
  {
    DivisionBounds(a + n / 2, n);
  }

  /** In basis points: zero, lower end, rate, upper end, ten thousand, in this order. */
  lemma RatesOrdered(count: nat, n: nat, root: real)
    requires 0 < n && count <= n && IsRoot(count, n, root)
    ensures var r := WilsonRate(count, n, root);
            && r.lower == ((Center(count, n) - Margin(n, root)) * 10_000.0).Floor
            && r.upper == Ceiling((Center(count, n) + Margin(n, root)) * 10_000.0)
            && 0 <= r.lower <= r.rate <= r.upper <= 10_000
            && 2 * (count * 10_000 - r.rate * n) < n && 2 * (count * 10_000 - r.rate * n) + n >= 0
  {
    RoundedHalfUp(count * 10_000, n);
    Interval(count, n, root);
    RateRounds(count, n);
    FloorMonotone((Center(count, n) - Margin(n, root)) * 10_000.0, Proportion(count, n) * 10_000.0);
    FloorMonotone(Proportion(count, n) * 10_000.0, (Center(count, n) + Margin(n, root)) * 10_000.0);
    FloorMonotone((Center(count, n) + Margin(n, root)) * 10_000.0, 10_000.0);
  }

  /** Counting the other outcome mirrors the interval. */
  lemma RatesMirror(count: nat, n: nat, root: real)
    requires 0 < n && count <= n && IsRoot(count, n, root)
    ensures IsRoot(n - count, n, root)
    ensures WilsonRate(n - count, n, root).lower == 10_000 - WilsonRate(count, n, root).upper
    ensures WilsonRate(n - count, n, root).upper == 10_000 - WilsonRate(count, n, root).lower
  {
    RootOfComplement(count, n, root);
    RatesOrdered(count, n, root);
    RatesOrdered(n - count, n, root);
    hide Radicand, Center, Margin, Spread, IsRoot;
    var low, high := Complement(count, n, root);
    FloorMirror(high * 10_000.0);
    FloorMirror((1.0 - low) * 10_000.0);
  }

  /** The interval of the complement mirrors the interval. */
  lemma Complement(count: nat, n: nat, root: real) returns (low: real, high: real)
    requires 0 < n && count <= n
    ensures low == Center(count, n) - Margin(n, root) && high == Center(count, n) + Margin(n, root)
    ensures Center(n - count, n) - Margin(n, root) == 1.0 - high
    ensures Center(n - count, n) + Margin(n, root) == 1.0 - low
  {
    hide Radicand, Center, Margin, Spread;
    Ends(count, n, root);
    Ends(n - count, n, root);
    var c, m, s, k := count as real, n as real, Spread(n, root), 2.0 * (n as real + Z * Z);
    assert (n - count) as real == m - c;
    low, high := Center(count, n) - Margin(n, root), Center(count, n) + Margin(n, root);
    Mirrored(
      Center(n - count, n) - Margin(n, root), high, k,
      2.0 * (m - c) + Z * Z - Z * s, 2.0 * c + Z * Z + Z * s);
    Mirrored(
      Center(n - count, n) + Margin(n, root), low, k,
      2.0 * (m - c) + Z * Z + Z * s, 2.0 * c + Z * Z - Z * s);
  }

  lemma FloorMirror(x: real)
    ensures (10_000.0 - x).Floor == 10_000 - Ceiling(x)
  {
  }

  // ---- More outcomes never lower the interval

  /** One more outcome moves z times the spread by at most two either way. */
  lemma SpreadMoves(count: nat, n: nat, root: real, next: real)
    requires 0 < n && count < n && IsRoot(count, n, root) && IsRoot(count + 1, n, next)
    ensures -2.0 <= Z * Spread(n, next) - Z * Spread(n, root) <= 2.0
  {
    var m, s, t := n as real, Spread(n, root), Spread(n, next);
    SpreadSquare(count, n, root);
    SpreadSquare(count + 1, n, next);
    SpreadBounds(count as real, m, s);
    SpreadBounds((count + 1) as real, m, t);
    SquaresDiffer(count as real, m, s, t);
    Moves(s, t);
    Moves(t, s);
  }

  lemma SquaresDiffer(c: real, m: real, s: real, t: real)
    requires 0.0 <= c && c + 1.0 <= m && Squared(c, m, s) && Squared(c + 1.0, m, t)
    ensures t * t - s * s <= 4.0 && s * s - t * t <= 4.0
  {
    var d := t * t - s * s;
    assert d * m == 4.0 * (m - 2.0 * c - 1.0);
    WithinFour(d, c, m);
  }

  lemma WithinFour(d: real, c: real, m: real)
    requires 0.0 <= c && c + 1.0 <= m && d * m == 4.0 * (m - 2.0 * c - 1.0)
    ensures -4.0 <= d <= 4.0
  {
    CancelOrder(d, 4.0, m);
    CancelOrder(-4.0, d, m);
  }

  lemma Moves(s: real, t: real)
    requires s >= Z && t >= Z && t * t - s * s <= 4.0
    ensures Z * t - Z * s <= 2.0
  {
    if t > s {
      assert (t - s) * (t + s) == t * t - s * s;
      assert t + s >= 2.0 * Z;
      ScaleOrder(2.0 * Z, t + s, t - s);
      assert (2.0 * Z) * (t - s) <= 4.0;
    } else {
      ScaleOrder(t, s, Z);
    }
  }

  /** For a fixed sample count both ends are nondecreasing in the count. */
  lemma RatesMonotone(count: nat, n: nat, root: real, next: real)
    requires 0 < n && count < n && IsRoot(count, n, root) && IsRoot(count + 1, n, next)
    ensures WilsonRate(count, n, root).lower <= WilsonRate(count + 1, n, next).lower
    ensures WilsonRate(count, n, root).upper <= WilsonRate(count + 1, n, next).upper
  {
    RatesOrdered(count, n, root);
    RatesOrdered(count + 1, n, next);
    EndsMonotone(count, n, root, next);
    FloorMonotone(
      (Center(count, n) - Margin(n, root)) * 10_000.0, (Center(count + 1, n) - Margin(n, next)) * 10_000.0);
    FloorMonotone(
      (Center(count, n) + Margin(n, root)) * 10_000.0, (Center(count + 1, n) + Margin(n, next)) * 10_000.0);
  }

  lemma EndsMonotone(count: nat, n: nat, root: real, next: real)
    requires 0 < n && count < n && IsRoot(count, n, root) && IsRoot(count + 1, n, next)
    ensures Center(count, n) - Margin(n, root) <= Center(count + 1, n) - Margin(n, next)
    ensures Center(count, n) + Margin(n, root) <= Center(count + 1, n) + Margin(n, next)
  {
    hide Radicand, Center, Margin, Spread;
    Ends(count, n, root);
    Ends(count + 1, n, next);
    SpreadMoves(count, n, root, next);
    var k := 2.0 * (n as real + Z * Z);
    assert (count + 1) as real == count as real + 1.0;
    var c, x, y := count as real, Z * Spread(n, root), Z * Spread(n, next);
    EndOrder(
      Center(count, n) - Margin(n, root), Center(count + 1, n) - Margin(n, next), k,
      2.0 * c + Z * Z - x, 2.0 * (c + 1.0) + Z * Z - y);
    EndOrder(
      Center(count, n) + Margin(n, root), Center(count + 1, n) + Margin(n, next), k,
      2.0 * c + Z * Z + x, 2.0 * (c + 1.0) + Z * Z + y);
  }

  lemma EndOrder(a: real, b: real, k: real, x: real, y: real)
    requires k > 0.0 && a * k == x && b * k == y && x <= y
    ensures a <= b
  {
    CancelOrder(a, b, k);
  }

  /** Over any two counts, by as many single steps as they are apart. */
  lemma {:induction false} RatesNondecreasing(count: nat, more: nat, n: nat, root: nat -> real)
    requires 0 < n && count <= more <= n
    requires forall k: nat :: count <= k <= more ==> IsRoot(k, n, root(k))
    ensures WilsonRate(count, n, root(count)).lower <= WilsonRate(more, n, root(more)).lower
    ensures WilsonRate(count, n, root(count)).upper <= WilsonRate(more, n, root(more)).upper
    decreases more - count
  {
    if count < more {
      RatesNondecreasing(count, more - 1, n, root);
      assert IsRoot(more - 1, n, root(more - 1)) && IsRoot(more, n, root(more));
      RatesMonotone(more - 1, n, root(more - 1), root(more));
    }
  }

  // ---- Nearest-rank percentiles

  predicate Ordered(s: seq<int>) {
    forall i, j :: 0 <= i < j < |s| ==> s[i] <= s[j]
  }

  /** The rank of a percentile given in basis points, in a list of `n`. */
  function Rank(n: nat, basisPoints: nat): (rank: nat)
    requires n > 0 && basisPoints <= 10_000
    ensures 1 <= rank <= n
  {
    var rank := (basisPoints * n + 9_999) / 10_000;
    RankInside(n, basisPoints);
    if rank < 1 then 1 else rank
  }

  lemma RankInside(n: nat, basisPoints: nat)
    requires n > 0 && basisPoints <= 10_000
    ensures 0 <= (basisPoints * n + 9_999) / 10_000 <= n
  {
    assert basisPoints * n <= 10_000 * n;
  }

  function NearestRank(ordered: seq<int>, basisPoints: nat): int
    requires ordered != [] && basisPoints <= 10_000
  {
    ordered[Rank(|ordered|, basisPoints) - 1]
  }

  lemma RankMonotone(n: nat, low: nat, high: nat)
    requires n > 0 && low <= high <= 10_000
    ensures Rank(n, low) <= Rank(n, high)
  {
    assert low * n <= high * n;
  }

  /** Minimum, median, ninety-fifth and ninety-ninth percentile and maximum stand in order. */
  lemma DistributionOrdered(ordered: seq<int>)
    requires ordered != [] && Ordered(ordered)
    ensures ordered[0] <= NearestRank(ordered, 5_000) <= NearestRank(ordered, 9_500)
    ensures NearestRank(ordered, 9_500) <= NearestRank(ordered, 9_900) <= ordered[|ordered| - 1]
  {
    RankMonotone(|ordered|, 5_000, 9_500);
    RankMonotone(|ordered|, 9_500, 9_900);
  }

  /** The rank is the least position that covers the percentile of the list. */
  lemma RankCovers(n: nat, basisPoints: nat, k: nat)
    requires 0 < n && basisPoints <= 10_000 && 1 <= k <= n
    ensures Rank(n, basisPoints) <= k <==> basisPoints * n <= k * 10_000
  {
  }

  /** How many values are `v` or less. */
  function AtMost(values: seq<int>, v: int): (count: nat)
    ensures count <= |values|
  {
    if values == [] then 0
    else
      var n := |values| - 1;
      AtMost(values[..n], v) + (if values[n] <= v then 1 else 0)
  }

  lemma {:induction false} FirstAreAtMost(ordered: seq<int>, v: int, k: nat)
    requires Ordered(ordered) && k <= |ordered| && (0 < k ==> ordered[k - 1] <= v)
    ensures k <= AtMost(ordered, v)
  {
    if ordered != [] {
      var n := |ordered| - 1;
      FirstAreAtMost(ordered[..n], v, if k <= n then k else n);
    }
  }

  lemma {:induction false} RestAreAbove(ordered: seq<int>, v: int, k: nat)
    requires Ordered(ordered) && k <= |ordered| && (k < |ordered| ==> v < ordered[k])
    ensures AtMost(ordered, v) <= k
  {
    if k < |ordered| {
      RestAreAbove(ordered[..|ordered| - 1], v, k);
    }
  }

  /** The percentile is the least number that enough of the values do not exceed. */
  lemma PercentileLeast(ordered: seq<int>, basisPoints: nat, v: int)
    requires ordered != [] && Ordered(ordered) && 0 < basisPoints <= 10_000
    ensures NearestRank(ordered, basisPoints) <= v <==> basisPoints * |ordered| <= AtMost(ordered, v) * 10_000
  {
    var n, rank := |ordered|, Rank(|ordered|, basisPoints);
    if ordered[rank - 1] <= v {
      FirstAreAtMost(ordered, v, rank);
      RankCovers(n, basisPoints, AtMost(ordered, v));
    } else {
      RestAreAbove(ordered, v, rank - 1);
      if 0 < AtMost(ordered, v) {
        RankCovers(n, basisPoints, AtMost(ordered, v));
      }
    }
  }
}
