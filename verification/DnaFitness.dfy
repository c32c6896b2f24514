// domain_sdk/dna_fitness.py: the statistics behind a fitness snapshot and the projector that keeps it current.
// Rates are exact reals; the rounding to six digits is not modelled and `root` stands for `math.sqrt`.

/** The Wilson score bound, in terms of t = z * z / n and the margin m. */
module WilsonScore {
  import opened RealArithmetic

  /** m is the non-negative square root the formula takes, times z. */
  ghost predicate IsMargin(p: real, t: real, m: real) {
    m >= 0.0 && m * m == t * (p * (1.0 - p) + t / 4.0)
  }

  /** `q` is not rejected by the score test: the squared distance to the observed rate is within z standard errors. */
  ghost predicate Plausible(p: real, t: real, q: real) {
    (p - q) * (p - q) <= t * (q * (1.0 - q))
  }

  lemma MarginFactors(p: real, t: real, m: real)
    requires IsMargin(p, t, m)
    ensures (p + t / 2.0) * (p + t / 2.0) - m * m == p * p * (1.0 + t)
  {
    assert (p + t / 2.0) * (p + t / 2.0) == p * p + p * t + t * t / 4.0;
    assert t * (p * (1.0 - p) + t / 4.0) == t * p - t * (p * p) + t * t / 4.0;
    assert p * p * (1.0 + t) == p * p + t * (p * p);
  }

  /** Scaled by 1 + t, the score inequality is a bound on the distance from the centre. */
  lemma PlausibleIsNear(p: real, t: real, m: real, q: real)
    requires IsMargin(p, t, m) && t > 0.0
    ensures Plausible(p, t, q) <==> (q * (1.0 + t) - (p + t / 2.0)) * (q * (1.0 + t) - (p + t / 2.0)) <= m * m
  {
    var d, c := 1.0 + t, p + t / 2.0;
    var gap := (p - q) * (p - q) - t * (q * (1.0 - q));
    MarginFactors(p, t, m);
    GapIsQuadratic(p, t, q);
    Square(q * d, c);
    assert (q * d - c) * (q * d - c) - m * m == d * gap by {
      assert d * gap == d * (q * q * d - 2.0 * q * c + p * p);
      Expand(d, q, c, p);
    }
    if gap <= 0.0 {
      MulNonneg(d, 0.0 - gap);
      assert d * (0.0 - gap) == 0.0 - d * gap;
    } else {
      MulPositive(d, gap);
    }
  }

  lemma GapIsQuadratic(p: real, t: real, q: real)
    ensures (p - q) * (p - q) - t * (q * (1.0 - q)) == q * q * (1.0 + t) - 2.0 * q * (p + t / 2.0) + p * p
  {
    assert (p - q) * (p - q) == p * p - 2.0 * q * p + q * q;
    assert t * (q * (1.0 - q)) == t * q - t * (q * q);
    assert q * q * (1.0 + t) == q * q + t * (q * q);
    assert 2.0 * q * (p + t / 2.0) == 2.0 * q * p + t * q;
  }

  lemma Square(a: real, b: real)
    ensures (a - b) * (a - b) == a * a - 2.0 * a * b + b * b
  {
  }

  lemma Expand(d: real, q: real, c: real, p: real)
    ensures d * (q * q * d - 2.0 * q * c + p * p) == (q * d) * (q * d) - 2.0 * (q * d) * c + p * p * d
  {
    assert d * (q * q * d) == (q * d) * (q * d);
    assert d * (2.0 * q * c) == 2.0 * (q * d) * c;
  }

  lemma SquareExceeds(x: real, m: real)
    requires m >= 0.0 && x < 0.0 - m
    ensures x * x > m * m
  {
    MulPositive(0.0 - x - m, 0.0 - x);
    MulNonneg(m, 0.0 - x - m);
    assert (0.0 - x - m) * (0.0 - x) == x * x + m * x;
    assert m * (0.0 - x - m) == 0.0 - m * x - m * m;
  }

  lemma SquareOrder(a: real, m: real)
    requires m >= 0.0 && a * a < m * m
    ensures a < m
  {
    assert (a - m) * (a + m) == a * a - m * m;
    if a >= m {
      MulNonneg(a - m, a + m);
    }
  }

  lemma CancelLe(a: real, b: real, d: real)
    requires d > 0.0 && a * d <= b * d
    ensures a <= b
  {
    assert (a - b) * d == a * d - b * d;
    if a > b {
      MulPositive(a - b, d);
    }
  }

  lemma CancelLt(a: real, b: real, d: real)
    requires d > 0.0 && a * d < b * d
    ensures a < b
  {
    assert (a - b) * d == a * d - b * d;
    if a >= b {
      MulNonneg(a - b, d);
    }
  }

  /** The lower end of the score interval. */
  ghost predicate IsLower(p: real, t: real, m: real, lower: real) {
    lower * (1.0 + t) == p + t / 2.0 - m
  }

  /** The bound is plausible itself, and nothing plausible lies below it. */
  lemma LowerIsLeastPlausible(p: real, t: real, m: real, lower: real, q: real)
    requires IsMargin(p, t, m) && t > 0.0 && IsLower(p, t, m, lower)
    ensures Plausible(p, t, lower)
    ensures Plausible(p, t, q) ==> lower <= q
  {
    PlausibleIsNear(p, t, m, lower);
    assert lower * (1.0 + t) - (p + t / 2.0) == 0.0 - m;
    assert (0.0 - m) * (0.0 - m) == m * m;
    if Plausible(p, t, q) {
      PlausibleIsNear(p, t, m, q);
      if q * (1.0 + t) - (p + t / 2.0) < 0.0 - m {
        SquareExceeds(q * (1.0 + t) - (p + t / 2.0), m);
      }
      CancelLe(lower, q, 1.0 + t);
    }
  }

  function Scaled(p: real, d: real): real { p * p * d }

  /** (c - m) * (c + m) == p * p * d, for the centre c and the denominator d. */
  lemma LowerTimesUpper(p: real, t: real, m: real, c: real, d: real)
    requires IsMargin(p, t, m) && c == p + t / 2.0 && d == 1.0 + t
    ensures (c - m) * (c + m) == Scaled(p, d)
  {
    MarginFactors(p, t, m);
    assert (c - m) * (c + m) == c * c - m * m;
  }

  lemma LowerAtZero(t: real, m: real, lower: real)
    requires IsMargin(0.0, t, m) && t > 0.0 && IsLower(0.0, t, m, lower)
    ensures lower == 0.0
  {
    LowerTimesUpper(0.0, t, m, t / 2.0, 1.0 + t);
    var x, y := t / 2.0 - m, t / 2.0 + m;
    assert x * y == 0.0 && 0.0 * y == 0.0;
    CancelLe(0.0, x, y);
    CancelLe(x, 0.0, y);
    assert 0.0 * (1.0 + t) == 0.0;
    CancelLe(0.0, lower, 1.0 + t);
    CancelLe(lower, 0.0, 1.0 + t);
  }

  lemma SquareTimesPositive(p: real, d: real)
    requires p > 0.0 && d > 0.0
    ensures Scaled(p, d) > 0.0
  {
    MulPositive(p, d);
    MulPositive(p, p * d);
  }

  lemma LowerPositive(p: real, t: real, m: real, lower: real)
    requires IsMargin(p, t, m) && t > 0.0 && IsLower(p, t, m, lower) && 0.0 < p <= 1.0
    ensures 0.0 < lower
  {
    var c, d := p + t / 2.0, 1.0 + t;
    LowerTimesUpper(p, t, m, c, d);
    SquareTimesPositive(p, d);
    assert lower * d == c - m;
    QuotientPositive(c - m, c + m, Scaled(p, d), lower, d);
  }

  lemma QuotientPositive(x: real, y: real, product: real, lower: real, d: real)
    requires x * y == product && product > 0.0 && y > 0.0 && d > 0.0 && lower * d == x
    ensures lower > 0.0
  {
    CancelLt(0.0, x, y);
    CancelLt(0.0, lower, d);
  }

  /** Between zero and the observed rate, and zero only at rate zero. */
  lemma LowerRange(p: real, t: real, m: real, lower: real)
    requires IsMargin(p, t, m) && t > 0.0 && IsLower(p, t, m, lower) && 0.0 <= p <= 1.0
    ensures 0.0 <= lower <= p
    ensures lower == 0.0 <==> p == 0.0
    ensures p > 0.0 ==> lower < p
  {
    if p == 0.0 {
      LowerAtZero(t, m, lower);
    } else {
      LowerPositive(p, t, m, lower);
      PositiveGap(p, t, m);
      CancelLt(lower, p, 1.0 + t);
    }
  }

  lemma GapSquare(p: real, t: real, v: real)
    requires v == p * (1.0 - p)
    ensures (t * (0.5 - p)) * (t * (0.5 - p)) == t * t / 4.0 - (t * t) * v
  {
    assert (0.5 - p) * (0.5 - p) == 0.25 - v;
    assert (t * (0.5 - p)) * (t * (0.5 - p)) == (t * t) * ((0.5 - p) * (0.5 - p));
  }

  lemma MarginSquare(p: real, t: real, m: real, v: real)
    requires IsMargin(p, t, m) && v == p * (1.0 - p)
    ensures m * m == t * v + t * t / 4.0
  {
    assert t * (v + t / 4.0) == t * v + t * t / 4.0;
  }

  lemma MarginBeats(p: real, t: real, m: real)
    requires IsMargin(p, t, m) && t > 0.0 && 0.0 < p < 1.0
    ensures (t * (0.5 - p)) * (t * (0.5 - p)) < m * m
  {
    var v := p * (1.0 - p);
    assert v > 0.0 by { MulPositive(p, 1.0 - p); }
    var tv, tt := t * v, t * t;
    assert tv > 0.0 by { MulPositive(t, v); }
    assert tt > 0.0 by { MulPositive(t, t); }
    assert tt * v > 0.0 by { MulPositive(tt, v); }
    GapSquare(p, t, v);
    MarginSquare(p, t, m, v);
  }

  /** The gap is m - t * (1/2 - p), and m * m exceeds the square of what it has to exceed. */
  lemma PositiveGap(p: real, t: real, m: real)
    requires IsMargin(p, t, m) && t > 0.0 && 0.0 < p <= 1.0
    ensures p * (1.0 + t) - (p + t / 2.0 - m) > 0.0
  {
    var a := t * (0.5 - p);
    assert p * (1.0 + t) - (p + t / 2.0 - m) == m - a;
    if p < 1.0 {
      MarginBeats(p, t, m);
      SquareOrder(a, m);
    } else {
      assert a == t * (0.0 - 0.5);
    }
  }

  lemma CloserStaysPlausible(p: real, q: real, t: real, x: real)
    requires x <= p <= q && Plausible(q, t, x)
    ensures Plausible(p, t, x)
  {
    MulNonneg(q - p, (q - x) + (p - x));
    assert (q - p) * ((q - x) + (p - x)) == (q - x) * (q - x) - (p - x) * (p - x);
  }

  /** More successes in the same number of trials never lower the bound. */
  lemma LowerMonotone(p: real, q: real, t: real, mp: real, mq: real, lowP: real, lowQ: real)
    requires 0.0 <= p <= q <= 1.0 && t > 0.0
    requires IsMargin(p, t, mp) && IsLower(p, t, mp, lowP) && IsMargin(q, t, mq) && IsLower(q, t, mq, lowQ)
    ensures lowP <= lowQ
  {
    LowerRange(p, t, mp, lowP);
    if lowQ < p {
      LowerIsLeastPlausible(q, t, mq, lowQ, lowQ);
      CloserStaysPlausible(p, q, t, lowQ);
      LowerIsLeastPlausible(p, t, mp, lowP, lowQ);
    }
  }
}

module FitnessStatistics {
  import opened RealArithmetic
  import opened RealSums
  import opened Sorting
  import opened FactorStatistics
  import opened WilsonScore

  function Rate(k: nat, n: nat): real
    requires n > 0
  {
    k as real / n as real
  }

  function Radicand(p: real, z: real, n: real): real
    requires n > 0.0
  {
    (p * (1.0 - p) + z * z / (4.0 * n)) / n
  }

  /** `_wilson_lower` before it is clamped. */
  function WilsonRaw(p: real, z: real, n: real, root: real -> real): real
    requires n > 0.0 && 1.0 + z * z / n != 0.0
  {
    (p + z * z / (2.0 * n) - z * root(Radicand(p, z, n))) / (1.0 + z * z / n)
  }

  lemma QuotientSign(w: real, n: real)
    requires n > 0.0 && w > 0.0
    ensures w / n > 0.0
  {
    var q := w / n;
    assert q * n == w && 0.0 * n == 0.0;
    CancelLt(0.0, q, n);
  }

  lemma TimesPositive(a: real, b: real)
    requires a > 0.0 && b > 0.0
    ensures Times(a, b) > 0.0
  {
    MulPositive(a, b);
  }

  lemma SquareOverPositive(z: real, n: real)
    requires n > 0.0 && z > 0.0
    ensures z * z / n > 0.0
  {
    var w := Times(z, z);
    assert w > 0.0 by { TimesPositive(z, z); }
    QuotientSign(w, n);
  }

  function WilsonLower(successes: nat, count: nat, z: real, root: real -> real): real
    requires count > 0 && z > 0.0
  {
    SquareOverPositive(z, count as real);
    var raw := WilsonRaw(Rate(successes, count), z, count as real, root);
    if raw < 0.0 then 0.0 else raw
  }

  lemma RateInRange(k: nat, n: nat)
    requires k <= n && n > 0
    ensures 0.0 <= Rate(k, n) <= 1.0 && (Rate(k, n) == 0.0 <==> k == 0)
  {
    var q, m := Rate(k, n), n as real;
    assert q * m == k as real;
    assert 0.0 * m == 0.0 && 1.0 * m == m;
    CancelLe(0.0, q, m);
    CancelLe(q, 1.0, m);
    if k == 0 {
      CancelLe(q, 0.0, m);
    }
  }

  lemma RateMonotone(k: nat, m: nat, n: nat)
    requires k <= m && n > 0
    ensures Rate(k, n) <= Rate(m, n)
  {
    assert Rate(k, n) * (n as real) == k as real && Rate(m, n) * (n as real) == m as real;
    CancelLe(Rate(k, n), Rate(m, n), n as real);
  }

  /** The formula's parts in terms of t: the margin squared, the centre and the quotient. */
  lemma WilsonShape(p: real, z: real, n: real, root: real -> real, t: real, m: real)
    requires n > 0.0 && z > 0.0 && RootAt(root, Radicand(p, z, n))
    requires t == z * z / n && m == z * root(Radicand(p, z, n)) && t > 0.0
    ensures IsMargin(p, t, m) && IsLower(p, t, m, WilsonRaw(p, z, n, root))
  {
    var x, r := Radicand(p, z, n), root(Radicand(p, z, n));
    assert t * n == z * z;
    assert z * z / (4.0 * n) == t / 4.0 by { QuarterOf(z * z, n, t); }
    assert z * z / (2.0 * n) == t / 2.0 by { HalfOf(z * z, n, t); }
    MulNonneg(z, r);
    var y := p * (1.0 - p) + t / 4.0;
    assert x * n == y;
    assert m * m == (z * z) * (r * r);
    assert (z * z) * x == (t * n) * x == t * (x * n);
    var raw := WilsonRaw(p, z, n, root);
    assert raw * (1.0 + t) == p + t / 2.0 - m;
  }

  lemma QuarterOf(a: real, n: real, t: real)
    requires n > 0.0 && t * n == a
    ensures a / (4.0 * n) == t / 4.0
  {
    assert (t / 4.0) * (4.0 * n) == t * n;
  }

  lemma HalfOf(a: real, n: real, t: real)
    requires n > 0.0 && t * n == a
    ensures a / (2.0 * n) == t / 2.0
  {
    assert (t / 2.0) * (2.0 * n) == t * n;
  }

  ghost predicate WilsonDefined(successes: nat, count: nat, z: real, root: real -> real) {
    count > 0 && successes <= count && z > 0.0 && RootAt(root, Radicand(Rate(successes, count), z, count as real))
  }

  /** The bound lies between zero and the success rate, is zero only at rate zero, and the clamp is never needed. */
  lemma WilsonBounds(successes: nat, count: nat, z: real, root: real -> real)
    requires WilsonDefined(successes, count, z, root)
    ensures var lower := WilsonLower(successes, count, z, root);
      0.0 <= lower <= Rate(successes, count) && (lower == 0.0 <==> successes == 0) && (successes > 0 ==> lower < Rate(successes, count))
    ensures z * z / count as real > 0.0
    ensures WilsonLower(successes, count, z, root) == WilsonRaw(Rate(successes, count), z, count as real, root)
  {
    var n, p := count as real, Rate(successes, count);
    SquareOverPositive(z, n);
    RateInRange(successes, count);
    var t, m := z * z / n, z * root(Radicand(p, z, n));
    WilsonShape(p, z, n, root, t, m);
    LowerRange(p, t, m, WilsonRaw(p, z, n, root));
  }

  /** What the bound is for: the least success probability the score test at z does not reject. */
  lemma WilsonIsScoreBound(successes: nat, count: nat, z: real, root: real -> real, q: real)
    requires WilsonDefined(successes, count, z, root)
    ensures Plausible(Rate(successes, count), z * z / count as real, WilsonLower(successes, count, z, root))
    ensures Plausible(Rate(successes, count), z * z / count as real, q) ==> WilsonLower(successes, count, z, root) <= q
  {
    var n, p := count as real, Rate(successes, count);
    WilsonBounds(successes, count, z, root);
    var t, m := z * z / n, z * root(Radicand(p, z, n));
    WilsonShape(p, z, n, root, t, m);
    LowerIsLeastPlausible(p, t, m, WilsonRaw(p, z, n, root), q);
  }

  /** Another success never lowers the bound. */
  lemma WilsonMonotone(fewer: nat, more: nat, count: nat, z: real, root: real -> real)
    requires fewer <= more && WilsonDefined(fewer, count, z, root) && WilsonDefined(more, count, z, root)
    ensures WilsonLower(fewer, count, z, root) <= WilsonLower(more, count, z, root)
  {
    var n, p, q := count as real, Rate(fewer, count), Rate(more, count);
    WilsonBounds(fewer, count, z, root);
    WilsonBounds(more, count, z, root);
    RateInRange(fewer, count);
    RateInRange(more, count);
    RateMonotone(fewer, more, count);
    var t, mp, mq := z * z / n, z * root(Radicand(p, z, n)), z * root(Radicand(q, z, n));
    WilsonShape(p, z, n, root, t, mp);
    WilsonShape(q, z, n, root, t, mq);
    LowerMonotone(p, q, t, mp, mq, WilsonRaw(p, z, n, root), WilsonRaw(q, z, n, root));
  }

  // ---- The 95th percentile.

  function CountAtMost(s: seq<int>, v: int): nat {
    if s == [] then 0 else (if s[0] <= v then 1 else 0) + CountAtMost(s[1..], v)
  }

  function CountLess(s: seq<int>, v: int): nat {
    if s == [] then 0 else (if s[0] < v then 1 else 0) + CountLess(s[1..], v)
  }

  /** The ceiling of 0.95 n. */
  function NinetyFive(n: nat): (k: nat)
    ensures n > 0 ==> 1 <= k <= n
    ensures 100 * k >= 95 * n && 100 * k < 95 * n + 100
  {
    (95 * n + 99) / 100
  }

  function P95(latencies: seq<int>): int
    requires latencies != []
  {
    Pick(Sort(latencies, LeInt))
  }

  function Pick(ordered: seq<int>): int
    requires ordered != []
  {
    ordered[NinetyFive(|ordered|) - 1]
  }

  lemma {:induction false} CountSplit(a: seq<int>, b: seq<int>, v: int)
    ensures CountAtMost(a + b, v) == CountAtMost(a, v) + CountAtMost(b, v)
    ensures CountLess(a + b, v) == CountLess(a, v) + CountLess(b, v)
  {
    if a == [] {
      assert a + b == b;
    } else {
      assert (a + b)[1..] == a[1..] + b;
      CountSplit(a[1..], b, v);
    }
  }

  lemma {:induction false} CountPermute(a: seq<int>, b: seq<int>, v: int)
    requires multiset(a) == multiset(b)
    ensures CountAtMost(a, v) == CountAtMost(b, v) && CountLess(a, v) == CountLess(b, v)
  {
    if a == [] {
      assert |multiset(b)| == 0;
    } else {
      var i := MatchHead(a, b);
      CountPermute(a[1..], b[..i] + b[i + 1..], v);
      CountSplit(b[..i], [b[i]] + b[i + 1..], v);
      CountSplit(b[..i], b[i + 1..], v);
      assert ([b[i]] + b[i + 1..])[1..] == b[i + 1..];
    }
  }

  lemma {:induction false} AllAtMost(s: seq<int>, v: int)
    requires forall i :: 0 <= i < |s| ==> s[i] <= v
    ensures CountAtMost(s, v) == |s|
  {
    if s != [] { AllAtMost(s[1..], v); }
  }

  lemma {:induction false} NoneLess(s: seq<int>, v: int)
    requires forall i :: 0 <= i < |s| ==> s[i] >= v
    ensures CountLess(s, v) == 0
  {
    if s != [] { NoneLess(s[1..], v); }
  }

  lemma {:induction false} LessAtMostLength(s: seq<int>, v: int)
    ensures CountLess(s, v) <= |s|
  {
    if s != [] { LessAtMostLength(s[1..], v); }
  }

  ghost predicate NonDecreasingInts(s: seq<int>) {
    forall i, j :: 0 <= i <= j < |s| ==> s[i] <= s[j]
  }

  lemma SortedSplits(s: seq<int>, k: nat)
    requires NonDecreasingInts(s) && 1 <= k <= |s|
    ensures CountLess(s, s[k - 1]) < k <= CountAtMost(s, s[k - 1])
  {
    var v := s[k - 1];
    assert s == s[..k] + s[k..] && s == s[..k - 1] + s[k - 1..];
    CountSplit(s[..k], s[k..], v);
    AllAtMost(s[..k], v);
    CountSplit(s[..k - 1], s[k - 1..], v);
    NoneLess(s[k - 1..], v);
    LessAtMostLength(s[..k - 1], v);
  }

  lemma SortInts(s: seq<int>)
    ensures NonDecreasingInts(Sort(s, LeInt))
  {
    SortIsSorted(s, LeInt);
    var r := Sort(s, LeInt);
    forall i, j | 0 <= i <= j < |r| ensures r[i] <= r[j] {
      assert i < j ==> LeInt(r[i], r[j]);
    }
  }

  lemma PickSplits(latencies: seq<int>, s: seq<int>)
    requires multiset(s) == multiset(latencies) && NonDecreasingInts(s) && s != []
    ensures Pick(s) in latencies
    ensures CountLess(latencies, Pick(s)) < NinetyFive(|s|) <= CountAtMost(latencies, Pick(s))
  {
    SortedSplits(s, NinetyFive(|s|));
    CountPermute(s, latencies, Pick(s));
    assert Pick(s) in multiset(s);
  }

  /** At least ceil(0.95 n) samples are at or below the value picked, and fewer than that strictly below it. */
  lemma P95Splits(latencies: seq<int>)
    requires latencies != []
    ensures P95(latencies) in latencies
    ensures CountLess(latencies, P95(latencies)) < NinetyFive(|latencies|) <= CountAtMost(latencies, P95(latencies))
  {
    SortInts(latencies);
    PickSplits(latencies, Sort(latencies, LeInt));
  }

  function AtMost(s: seq<int>, v: int): set<int> { set i | 0 <= i < |s| && s[i] <= v }

  function Less(s: seq<int>, v: int): set<int> { set i | 0 <= i < |s| && s[i] < v }

  lemma CountsEnd(front: seq<int>, last: int, v: int)
    ensures |AtMost(front + [last], v)| == |AtMost(front, v)| + if last <= v then 1 else 0
    ensures |Less(front + [last], v)| == |Less(front, v)| + if last < v then 1 else 0
  {
    var s := front + [last];
    assert AtMost(s, v) == if last <= v then AtMost(front, v) + {|front|} else AtMost(front, v);
    assert Less(s, v) == if last < v then Less(front, v) + {|front|} else Less(front, v);
  }

  lemma {:induction false} CountsMean(s: seq<int>, v: int)
    ensures CountAtMost(s, v) == |AtMost(s, v)| && CountLess(s, v) == |Less(s, v)|
    decreases |s|
  {
    if s == [] {
      assert AtMost(s, v) == {} && Less(s, v) == {};
    } else {
      var front, last := s[..|s| - 1], s[|s| - 1];
      CountsMean(front, v);
      CountsEnd(front, last, v);
      CountSplit(front, [last], v);
      assert s == front + [last];
    }
  }

  /** The value picked is one of the latencies; at least 95 of 100 are at or below it, fewer than that strictly below. */
  lemma P95Means(latencies: seq<int>)
    requires latencies != []
    ensures P95(latencies) in latencies
    ensures 100 * |AtMost(latencies, P95(latencies))| >= 95 * |latencies| > 100 * |Less(latencies, P95(latencies))|
  {
    P95Splits(latencies);
    CountsMean(latencies, P95(latencies));
  }

  // ---- A snapshot's numbers.

  datatype Row = Row(successful: bool, evidence: real, userValue: real, cost: nat, latency: nat, stable: bool, risky: bool)

  datatype Stats = Stats(samples: nat, success: real, lower: real, evidence: real, userValue: real,
                         cost: real, latency: real, p95: int, stability: real, risk: real)

  function Map<T>(rows: seq<Row>, f: Row -> T): (r: seq<T>)
    ensures |r| == |rows| && forall i :: 0 <= i < |r| ==> r[i] == f(rows[i])
  {
    if rows == [] then [] else [f(rows[0])] + Map(rows[1..], f)
  }

  function Flag(b: bool): int { if b then 1 else 0 }

  function Successes(rows: seq<Row>): (n: nat)
    ensures n <= |rows|
  {
    if rows == [] then 0 else Flag(rows[0].successful) + Successes(rows[1..])
  }

  function Risks(rows: seq<Row>): (n: nat)
    ensures n <= |rows|
  {
    if rows == [] then 0 else Flag(rows[0].risky) + Risks(rows[1..])
  }

  function MeanOf(rows: seq<Row>, f: Row -> real): real
    requires rows != []
  {
    Sum(Map(rows, f)) / |rows| as real
  }

  function StatsOf(rows: seq<Row>, z: real, root: real -> real): Stats
    requires rows != [] && z > 0.0
  {
    var n := |rows|;
    Stats(n, Rate(Successes(rows), n), WilsonLower(Successes(rows), n, z, root),
          MeanOf(rows, (r: Row) => r.evidence), MeanOf(rows, (r: Row) => r.userValue),
          MeanOf(rows, (r: Row) => r.cost as real), MeanOf(rows, (r: Row) => r.latency as real),
          P95(Map(rows, (r: Row) => r.latency)),
          MeanOf(rows, (r: Row) => Flag(r.stable) as real), Rate(Risks(rows), n))
  }

  lemma {:induction false} SumInRange(s: seq<real>, hi: real)
    requires forall i :: 0 <= i < |s| ==> 0.0 <= s[i] <= hi
    ensures 0.0 <= Sum(s) <= |s| as real * hi
  {
    if s != [] {
      SumInRange(s[1..], hi);
      assert |s| as real * hi == (|s| - 1) as real * hi + hi;
    }
  }

  lemma MeanInRange(rows: seq<Row>, f: Row -> real, hi: real)
    requires rows != [] && forall i :: 0 <= i < |rows| ==> 0.0 <= f(rows[i]) <= hi
    ensures 0.0 <= MeanOf(rows, f) <= hi
  {
    var s, n := Map(rows, f), |rows| as real;
    SumInRange(s, hi);
    var q := Sum(s) / n;
    assert q * n == Sum(s) && 0.0 * n == 0.0 && hi * n == n * hi;
    CancelLe(0.0, q, n);
    QuotientAtMost(q, n, Sum(s), hi);
  }

  lemma QuotientAtMost(q: real, n: real, total: real, hi: real)
    requires n > 0.0 && q * n == total && total <= n * hi
    ensures q <= hi
  {
    CancelLe(q, hi, n);
  }

  ghost predicate ScoresOk(rows: seq<Row>) {
    forall i :: 0 <= i < |rows| ==> 0.0 <= rows[i].evidence <= 1.0 && 0.0 <= rows[i].userValue <= 1.0
  }

  predicate UnitRange(x: real) { 0.0 <= x <= 1.0 }

  /** Every snapshot satisfies the range checks the table declares. */
  lemma StatsInRange(rows: seq<Row>, z: real, root: real -> real)
    requires rows != [] && ScoresOk(rows) && WilsonDefined(Successes(rows), |rows|, z, root)
    ensures var s := StatsOf(rows, z, root);
      UnitRange(s.success) && UnitRange(s.lower) && UnitRange(s.evidence) && UnitRange(s.userValue)
      && UnitRange(s.stability) && UnitRange(s.risk) && s.p95 >= 0 && s.lower <= s.success
  {
    WilsonBounds(Successes(rows), |rows|, z, root);
    RateInRange(Successes(rows), |rows|);
    RateInRange(Risks(rows), |rows|);
    MeanInRange(rows, (r: Row) => r.evidence, 1.0);
    MeanInRange(rows, (r: Row) => r.userValue, 1.0);
    MeanInRange(rows, (r: Row) => Flag(r.stable) as real, 1.0);
    var latencies := Map(rows, (r: Row) => r.latency);
    P95Splits(latencies);
  }

  // ---- What the numbers are.

  function SuccessfulRows(rows: seq<Row>): set<int> { set i | 0 <= i < |rows| && rows[i].successful }

  function RiskyRows(rows: seq<Row>): set<int> { set i | 0 <= i < |rows| && rows[i].risky }

  function StableRows(rows: seq<Row>): set<int> { set i | 0 <= i < |rows| && rows[i].stable }

  function Positions(rows: seq<Row>, f: Row -> bool): set<int> { set i | 0 <= i < |rows| && f(rows[i]) }

  lemma PositionsEnd(front: seq<Row>, row: Row, f: Row -> bool)
    ensures |Positions(front + [row], f)| == |Positions(front, f)| + if f(row) then 1 else 0
  {
    var rows := front + [row];
    assert Positions(rows, f) == if f(row) then Positions(front, f) + {|front|} else Positions(front, f);
  }

  /** Adding up ones is counting. */
  lemma {:induction false} OnesCount(rows: seq<Row>, f: Row -> bool, g: Row -> real)
    requires forall r :: g(r) == if f(r) then 1.0 else 0.0
    ensures Sum(Map(rows, g)) == |Positions(rows, f)| as real
    decreases |rows|
  {
    if rows == [] {
      assert Positions(rows, f) == {};
    } else {
      var front, row := rows[..|rows| - 1], rows[|rows| - 1];
      OnesCount(front, f, g);
      PositionsEnd(front, row, f);
      MapSplit(front, [row], g);
      SumAppend(Map(front, g), g(row));
      assert rows == front + [row];
      assert Map([row], g) == [g(row)];
    }
  }

  lemma CountsOfRows(rows: seq<Row>)
    ensures Successes(rows) == |SuccessfulRows(rows)|
    ensures Risks(rows) == |RiskyRows(rows)|
    ensures Sum(Map(rows, (r: Row) => Flag(r.stable) as real)) == |StableRows(rows)| as real
  {
    CountsAsSums(rows);
    OnesCount(rows, (r: Row) => r.successful, (r: Row) => Flag(r.successful) as real);
    OnesCount(rows, (r: Row) => r.risky, (r: Row) => Flag(r.risky) as real);
    OnesCount(rows, (r: Row) => r.stable, (r: Row) => Flag(r.stable) as real);
    assert Positions(rows, (r: Row) => r.successful) == SuccessfulRows(rows);
    assert Positions(rows, (r: Row) => r.risky) == RiskyRows(rows);
    assert Positions(rows, (r: Row) => r.stable) == StableRows(rows);
  }

  /** A snapshot's rates are shares of the rows. */
  lemma RatesMean(rows: seq<Row>, z: real, root: real -> real)
    requires rows != [] && z > 0.0
    ensures var s, n := StatsOf(rows, z, root), |rows|;
      && s.samples == n
      && IsAverage(s.success, |SuccessfulRows(rows)| as real, n)
      && IsAverage(s.risk, |RiskyRows(rows)| as real, n)
      && IsAverage(s.stability, |StableRows(rows)| as real, n)
      && s.lower == WilsonLower(|SuccessfulRows(rows)|, n, z, root)
  {
    CountsOfRows(rows);
    AverageIs(Successes(rows) as real, |rows|);
    AverageIs(Risks(rows) as real, |rows|);
    MeanIsAverage(rows, (r: Row) => Flag(r.stable) as real);
  }

  function Costs(rows: seq<Row>): seq<real> { seq(|rows|, i requires 0 <= i < |rows| => rows[i].cost as real) }

  function Latencies(rows: seq<Row>): seq<int> { seq(|rows|, i requires 0 <= i < |rows| => rows[i].latency) }

  function RealLatencies(rows: seq<Row>): seq<real> { seq(|rows|, i requires 0 <= i < |rows| => rows[i].latency as real) }

  function EvidenceScores(rows: seq<Row>): seq<real> { seq(|rows|, i requires 0 <= i < |rows| => rows[i].evidence) }

  function UserValues(rows: seq<Row>): seq<real> { seq(|rows|, i requires 0 <= i < |rows| => rows[i].userValue) }

  /** Its other numbers are averages over the rows, its percentile that of their latencies. */
  lemma StatsMean(rows: seq<Row>, z: real, root: real -> real)
    requires rows != [] && z > 0.0
    ensures var s, n := StatsOf(rows, z, root), |rows|;
      && IsAverage(s.cost, Sum(Costs(rows)), n)
      && IsAverage(s.latency, Sum(RealLatencies(rows)), n)
      && IsAverage(s.evidence, Sum(EvidenceScores(rows)), n)
      && IsAverage(s.userValue, Sum(UserValues(rows)), n)
      && |Latencies(rows)| == n && s.p95 == P95(Latencies(rows))
  {
    MapsAre(rows);
    MeanIsAverage(rows, (r: Row) => r.cost as real);
    MeanIsAverage(rows, (r: Row) => r.latency as real);
    MeanIsAverage(rows, (r: Row) => r.evidence);
    MeanIsAverage(rows, (r: Row) => r.userValue);
  }

  lemma MapsAre(rows: seq<Row>)
    ensures Map(rows, (r: Row) => r.cost as real) == Costs(rows) && Map(rows, (r: Row) => r.latency as real) == RealLatencies(rows)
    ensures Map(rows, (r: Row) => r.evidence) == EvidenceScores(rows) && Map(rows, (r: Row) => r.userValue) == UserValues(rows)
    ensures Map(rows, (r: Row) => r.latency) == Latencies(rows)
  {
  }

  lemma MeanIsAverage(rows: seq<Row>, f: Row -> real)
    requires rows != []
    ensures IsAverage(MeanOf(rows, f), Sum(Map(rows, f)), |rows|)
  {
    AverageIs(Sum(Map(rows, f)), |rows|);
  }

  // ---- The numbers do not depend on the order in which rows are read.

  lemma {:induction false} MapSplit<T>(a: seq<Row>, b: seq<Row>, f: Row -> T)
    ensures Map(a + b, f) == Map(a, f) + Map(b, f)
  {
  }

  lemma {:induction false} MapPermute<T>(a: seq<Row>, b: seq<Row>, f: Row -> T)
    requires multiset(a) == multiset(b)
    ensures multiset(Map(a, f)) == multiset(Map(b, f))
  {
    if a == [] {
      assert |multiset(b)| == 0;
    } else {
      var i := MatchHead(a, b);
      var rest := b[..i] + b[i + 1..];
      MapPermute(a[1..], rest, f);
      MapSplit(b[..i], b[i + 1..], f);
      MapSplit(b[..i], [b[i]] + b[i + 1..], f);
      assert Map([b[i]] + b[i + 1..], f) == [f(b[i])] + Map(b[i + 1..], f);
      assert Map(a, f) == [f(a[0])] + Map(a[1..], f);
    }
  }

  lemma {:induction false} CountsAsSums(rows: seq<Row>)
    ensures Successes(rows) as real == Sum(Map(rows, (r: Row) => Flag(r.successful) as real))
    ensures Risks(rows) as real == Sum(Map(rows, (r: Row) => Flag(r.risky) as real))
  {
    if rows != [] {
      CountsAsSums(rows[1..]);
    }
  }

  lemma MeanPermute(a: seq<Row>, b: seq<Row>, f: Row -> real)
    requires multiset(a) == multiset(b) && a != [] && b != []
    ensures MeanOf(a, f) == MeanOf(b, f)
  {
    MapPermute(a, b, f);
    SumPermute(Map(a, f), Map(b, f));
    assert |a| == |multiset(a)| == |multiset(b)| == |b|;
  }

  lemma SortPermuteInts(a: seq<int>, b: seq<int>)
    requires multiset(a) == multiset(b)
    ensures Sort(a, LeInt) == Sort(b, LeInt)
  {
    SortPermutation(a, b, LeInt);
  }

  lemma P95Permute(a: seq<int>, b: seq<int>)
    requires multiset(a) == multiset(b) && a != [] && b != []
    ensures P95(a) == P95(b)
  {
    SortPermuteInts(a, b);
  }

  lemma StatsPermute(a: seq<Row>, b: seq<Row>, z: real, root: real -> real)
    requires multiset(a) == multiset(b) && a != [] && b != [] && z > 0.0
    ensures StatsOf(a, z, root) == StatsOf(b, z, root)
  {
    assert |a| == |multiset(a)| == |multiset(b)| == |b|;
    CountsAsSums(a);
    CountsAsSums(b);
    MapPermute(a, b, (r: Row) => Flag(r.successful) as real);
    SumPermute(Map(a, (r: Row) => Flag(r.successful) as real), Map(b, (r: Row) => Flag(r.successful) as real));
    MapPermute(a, b, (r: Row) => Flag(r.risky) as real);
    SumPermute(Map(a, (r: Row) => Flag(r.risky) as real), Map(b, (r: Row) => Flag(r.risky) as real));
    assert Successes(a) == Successes(b) && Risks(a) == Risks(b);
    MeanPermute(a, b, (r: Row) => r.evidence);
    MeanPermute(a, b, (r: Row) => r.userValue);
    MeanPermute(a, b, (r: Row) => r.cost as real);
    MeanPermute(a, b, (r: Row) => r.latency as real);
    MeanPermute(a, b, (r: Row) => Flag(r.stable) as real);
    MapPermute(a, b, (r: Row) => r.latency);
    P95Permute(Map(a, (r: Row) => r.latency), Map(b, (r: Row) => r.latency));
  }
}

module DnaFitness {
  import opened Wrappers
  import opened FitnessStatistics

  datatype Policy = Policy(startsAt: int, endsAt: int, minimumSamples: nat, maximumRisk: real, z: real) {
    predicate Valid() { startsAt < endsAt && minimumSamples >= 1 && 0.0 <= maximumRisk <= 1.0 && z > 0.0 }
  }

  datatype Readiness = Collecting | Observing | Ready | RiskBlocked

  /** One outcome attributed to a DNA version; the digest covers everything but the observation time. */
  datatype Observation = Observation(evaluation: int, key: int, row: Row, at: int)

  datatype Snapshot = Snapshot(stats: Stats, readiness: Readiness, at: int, revision: nat)

  datatype FitnessError = OutsideWindow | NotAttributed | OtherAttribution | NoSnapshot

  function ReadinessOf(policy: Policy, samples: nat, risk: real, now: int): Readiness {
    if samples < policy.minimumSamples then Collecting
    else if risk > policy.maximumRisk then RiskBlocked
    else if now < policy.endsAt then Observing
    else Ready
  }

  /** As time passes on the same samples, OBSERVING can become READY and nothing else changes. */
  lemma ReadinessSettles(policy: Policy, samples: nat, risk: real, now: int, later: int)
    requires now <= later
    ensures var a, b := ReadinessOf(policy, samples, risk, now), ReadinessOf(policy, samples, risk, later);
      a == b || (a == Observing && b == Ready && now < policy.endsAt <= later)
  {
  }

  /** Too few samples say nothing; a risk above the limit blocks whatever the time; otherwise the end of the window decides. */
  lemma ReadinessMeans(policy: Policy, samples: nat, risk: real, now: int)
    ensures var r := ReadinessOf(policy, samples, risk, now);
      && (r == Collecting <==> samples < policy.minimumSamples)
      && (r == RiskBlocked <==> samples >= policy.minimumSamples && risk > policy.maximumRisk)
      && (r == Observing <==> samples >= policy.minimumSamples && risk <= policy.maximumRisk && now < policy.endsAt)
      && (r == Ready <==> samples >= policy.minimumSamples && risk <= policy.maximumRisk && now >= policy.endsAt)
  {
  }

  function RowsOf(log: seq<Observation>, key: int): (rows: seq<Row>)
    ensures forall r :: r in rows ==> exists i :: 0 <= i < |log| && log[i].key == key && log[i].row == r
  {
    if log == [] then []
    else RowsOf(log[..|log| - 1], key) + if log[|log| - 1].key == key then [log[|log| - 1].row] else []
  }

  /** The numbers `_rebuild` derives from the rows of one version. */
  function Statistics(z: real, root: real -> real): seq<Row> -> Stats
    requires z > 0.0
  {
    (rows: seq<Row>) => if rows == [] then Stats(0, 0.0, 0.0, 0.0, 0.0, 0.0, 0.0, 0, 0.0, 0.0) else StatsOf(rows, z, root)
  }

  function SnapshotOf(policy: Policy, statistics: seq<Row> -> Stats, rows: seq<Row>, now: int, revision: nat): Snapshot {
    var stats := statistics(rows);
    Snapshot(stats, ReadinessOf(policy, |rows|, stats.risk, now), now, revision)
  }

  /** The snapshot is what these rows say, at the time and revision it carries. */
  ghost predicate IsCurrent(policy: Policy, statistics: seq<Row> -> Stats, rows: seq<Row>, s: Snapshot) {
    s == SnapshotOf(policy, statistics, rows, s.at, s.revision) && s.revision >= |rows|
  }

  predicate Known(log: seq<Observation>, evaluation: int) {
    exists i :: 0 <= i < |log| && log[i].evaluation == evaluation
  }

  ghost predicate CurrentAt(policy: Policy, statistics: seq<Row> -> Stats, log: seq<Observation>, snapshots: map<int, Snapshot>, key: int)
  {
    var rows := RowsOf(log, key);
    if rows == [] then key !in snapshots else key in snapshots && IsCurrent(policy, statistics, rows, snapshots[key])
  }

  ghost predicate Current(policy: Policy, statistics: seq<Row> -> Stats, log: seq<Observation>, snapshots: map<int, Snapshot>)
  {
    forall key {:trigger CurrentAt(policy, statistics, log, snapshots, key)} :: CurrentAt(policy, statistics, log, snapshots, key)
  }

  ghost predicate OncePerEvaluation(log: seq<Observation>) {
    forall i, j :: 0 <= i < j < |log| ==> log[i].evaluation != log[j].evaluation
  }

  function NextRevision(snapshots: map<int, Snapshot>, key: int): nat {
    if key in snapshots then snapshots[key].revision + 1 else 1
  }

  lemma RebuiltIsCurrent(policy: Policy, statistics: seq<Row> -> Stats, rows: seq<Row>, now: int, revision: nat)
    requires rows != [] && policy.z > 0.0 && revision >= |rows|
    ensures IsCurrent(policy, statistics, rows, SnapshotOf(policy, statistics, rows, now, revision))
  {
  }

  lemma RevisionEnough(policy: Policy, statistics: seq<Row> -> Stats, log: seq<Observation>, snapshots: map<int, Snapshot>, key: int)
    requires CurrentAt(policy, statistics, log, snapshots, key)
    ensures NextRevision(snapshots, key) >= |RowsOf(log, key)| + 1
  {
  }

  lemma OthersStayCurrent(policy: Policy, statistics: seq<Row> -> Stats, log: seq<Observation>, snapshots: map<int, Snapshot>, o: Observation, s: Snapshot, key: int)
    requires key != o.key && CurrentAt(policy, statistics, log, snapshots, key)
    ensures CurrentAt(policy, statistics, log + [o], snapshots[o.key := s], key)
  {
    RowsAppend(log, o, key);
  }

  lemma RecordingKeepsCurrent(policy: Policy, statistics: seq<Row> -> Stats, log: seq<Observation>, snapshots: map<int, Snapshot>, o: Observation, s: Snapshot)
    requires Current(policy, statistics, log, snapshots)
    requires CurrentAt(policy, statistics, log + [o], snapshots[o.key := s], o.key)
    ensures Current(policy, statistics, log + [o], snapshots[o.key := s])
  {
    var next := snapshots[o.key := s];
    var after := log + [o];
    forall key ensures CurrentAt(policy, statistics, after, next, key) {
      assert CurrentAt(policy, statistics, log, snapshots, key);
      if key != o.key {
        OthersStayCurrent(policy, statistics, log, snapshots, o, s, key);
      }
    }
  }

  lemma RefreshingKeepsCurrent(policy: Policy, statistics: seq<Row> -> Stats, log: seq<Observation>, snapshots: map<int, Snapshot>, key: int, s: Snapshot)
    requires Current(policy, statistics, log, snapshots)
    requires RowsOf(log, key) != [] && IsCurrent(policy, statistics, RowsOf(log, key), s)
    ensures Current(policy, statistics, log, snapshots[key := s])
  {
    var next := snapshots[key := s];
    forall k ensures CurrentAt(policy, statistics, log, next, k) {
      assert CurrentAt(policy, statistics, log, snapshots, k);
    }
  }

  /** What the outcome table already says about an evaluation. */
  ghost predicate Compatible(log: seq<Observation>, o: Observation) {
    forall i :: 0 <= i < |log| && log[i].evaluation == o.evaluation ==> log[i].key == o.key && log[i].row == o.row
  }

  lemma RowsAppend(log: seq<Observation>, o: Observation, key: int)
    ensures RowsOf(log + [o], key) == if o.key == key then RowsOf(log, key) + [o.row] else RowsOf(log, key)
  {
    assert (log + [o])[..|log|] == log;
  }

  class DnaFitnessProjector {
    const policy: Policy
    const statistics: seq<Row> -> Stats
    var log: seq<Observation>
    var snapshots: map<int, Snapshot>

    /** Every outcome counts once, and every snapshot is what its rows say now. */
    ghost predicate Valid()
      reads this
    {
      && policy.Valid()
      && OncePerEvaluation(log)
      && Current(policy, statistics, log, snapshots)
    }

    constructor (policy: Policy, root: real -> real)
      requires policy.Valid()
      ensures Valid() && this.policy == policy && statistics == Statistics(policy.z, root) && log == []
    {
      this.policy, statistics, log, snapshots := policy, Statistics(policy.z, root), [], map[];
    }

    method Rebuild(key: int, now: int) returns (s: Snapshot)
      requires policy.Valid() && RowsOf(log, key) != []
      modifies this`snapshots
      ensures s == SnapshotOf(policy, statistics, RowsOf(log, key), now, NextRevision(old(snapshots), key))
      ensures snapshots == old(snapshots)[key := s]
    {
      var rows := RowsOf(log, key);
      var stats := statistics(rows);
      var revision := if key in snapshots then snapshots[key].revision + 1 else 1;
      s := Snapshot(stats, ReadinessOf(policy, |rows|, stats.risk, now), now, revision);
      snapshots := snapshots[key := s];
    }

    method Record(o: Observation, now: int) returns (s: Snapshot)
      requires Valid() && !Known(log, o.evaluation)
      modifies this`log, this`snapshots
      ensures Valid() && log == old(log) + [o] && snapshots == old(snapshots)[o.key := s]
      ensures s == SnapshotOf(policy, statistics, RowsOf(log, o.key), now, NextRevision(old(snapshots), o.key))
    {
      assert CurrentAt(policy, statistics, log, snapshots, o.key);
      RowsAppend(log, o, o.key);
      RevisionEnough(policy, statistics, log, snapshots, o.key);
      log := log + [o];
      s := Rebuild(o.key, now);
      RebuiltIsCurrent(policy, statistics, RowsOf(log, o.key), now, NextRevision(old(snapshots), o.key));
      RecordingKeepsCurrent(policy, statistics, old(log), old(snapshots), o, s);
    }

    /** A new outcome is recorded and projected; a repeated one changes nothing; another attribution is refused. */
    method Project(o: Observation, attributed: bool, now: int) returns (r: Result<Snapshot, FitnessError>)
      requires Valid()
      modifies this`log, this`snapshots
      ensures Valid()
      ensures r.Ok? <==> policy.startsAt <= o.at < policy.endsAt && attributed && Compatible(old(log), o)
      ensures r.Err? || Known(old(log), o.evaluation) ==> log == old(log) && snapshots == old(snapshots)
      ensures r.Ok? && !Known(old(log), o.evaluation) ==> log == old(log) + [o] && snapshots == old(snapshots)[o.key := r.value]
      ensures r.Ok? && !Known(old(log), o.evaluation) ==>
        r.value == SnapshotOf(policy, statistics, RowsOf(log, o.key), now, NextRevision(old(snapshots), o.key))
      ensures r.Ok? ==> o.key in snapshots && r.value == snapshots[o.key]
    {
      if !(policy.startsAt <= o.at < policy.endsAt) {
        return Err(OutsideWindow);
      }
      if !attributed {
        return Err(NotAttributed);
      }
      if i :| 0 <= i < |log| && log[i].evaluation == o.evaluation {
        if log[i].key != o.key || log[i].row != o.row {
          return Err(OtherAttribution);
        }
        OwnRow(log, i);
        assert CurrentAt(policy, statistics, log, snapshots, o.key);
        return Ok(snapshots[o.key]);
      }
      var s := Record(o, now);
      return Ok(s);
    }

    static lemma {:induction false} OwnRow(log: seq<Observation>, i: nat)
      requires i < |log|
      ensures RowsOf(log, log[i].key) != []
      decreases |log|
    {
      if i < |log| - 1 {
        OwnRow(log[..|log| - 1], i);
      }
    }

    /** Refreshing recomputes the same numbers; only readiness, time and revision move. */
    method Refresh(key: int, now: int) returns (r: Result<Snapshot, FitnessError>)
      requires Valid()
      modifies this`snapshots
      ensures Valid()
      ensures r.Ok? <==> key in old(snapshots)
      ensures r.Err? ==> snapshots == old(snapshots)
      ensures r.Ok? ==> snapshots == old(snapshots)[key := r.value]
      ensures r.Ok? ==> r.value.stats == old(snapshots)[key].stats && r.value.revision == old(snapshots)[key].revision + 1
    {
      if key !in snapshots {
        return Err(NoSnapshot);
      }
      assert CurrentAt(policy, statistics, log, snapshots, key);
      RevisionEnough(policy, statistics, log, snapshots, key);
      var s := Rebuild(key, now);
      RebuiltIsCurrent(policy, statistics, RowsOf(log, key), now, NextRevision(old(snapshots), key));
      RefreshingKeepsCurrent(policy, statistics, log, old(snapshots), key, s);
      return Ok(s);
    }
  }
}
