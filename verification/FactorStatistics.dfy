// domain_sdk/factor_backtest.py: average ranks and correlation.

module FactorStatistics {
  import opened Sorting
  import opened RealArithmetic
  import opened RealSums

  // ---- Counting.

  function Below(s: seq<real>, x: real): nat {
    if s == [] then 0 else (if s[0] < x then 1 else 0) + Below(s[1..], x)
  }

  function Ties(s: seq<real>, x: real): nat {
    if s == [] then 0 else (if s[0] == x then 1 else 0) + Ties(s[1..], x)
  }

  function Above(s: seq<real>, x: real): nat {
    if s == [] then 0 else (if s[0] > x then 1 else 0) + Above(s[1..], x)
  }

  /** The definition of a shared rank: everything smaller comes first, equals split their places evenly. */
  function Rank(s: seq<real>, x: real): real {
    Below(s, x) as real + (Ties(s, x) as real + 1.0) / 2.0
  }

  lemma {:induction false} CountsSplit(a: seq<real>, b: seq<real>, x: real)
    ensures Below(a + b, x) == Below(a, x) + Below(b, x)
    ensures Ties(a + b, x) == Ties(a, x) + Ties(b, x)
  {
    if a == [] {
      assert a + b == b;
    } else {
      assert (a + b)[1..] == a[1..] + b;
      CountsSplit(a[1..], b, x);
    }
  }

  lemma {:induction false} AllBelow(a: seq<real>, x: real)
    requires forall i :: 0 <= i < |a| ==> a[i] < x
    ensures Below(a, x) == |a| && Ties(a, x) == 0
  {
    if a != [] { AllBelow(a[1..], x); }
  }

  lemma {:induction false} AllTied(a: seq<real>, x: real)
    requires forall i :: 0 <= i < |a| ==> a[i] == x
    ensures Below(a, x) == 0 && Ties(a, x) == |a|
  {
    if a != [] { AllTied(a[1..], x); }
  }

  lemma {:induction false} AllAbove(a: seq<real>, x: real)
    requires forall i :: 0 <= i < |a| ==> a[i] > x
    ensures Below(a, x) == 0 && Ties(a, x) == 0
  {
    if a != [] { AllAbove(a[1..], x); }
  }

  lemma {:induction false} CountsPermute(a: seq<real>, b: seq<real>, x: real)
    requires multiset(a) == multiset(b)
    ensures Below(a, x) == Below(b, x) && Ties(a, x) == Ties(b, x)
  {
    if a == [] {
      assert |multiset(b)| == 0;
    } else {
      var i := MatchHead(a, b);
      CountsPermute(a[1..], b[..i] + b[i + 1..], x);
      CountsSplit(b[..i], [b[i]] + b[i + 1..], x);
      CountsSplit(b[..i], b[i + 1..], x);
      assert ([b[i]] + b[i + 1..])[1..] == b[i + 1..];
    }
  }

  lemma {:induction false} SumPermute(a: seq<real>, b: seq<real>)
    requires multiset(a) == multiset(b)
    ensures Sum(a) == Sum(b)
  {
    if a == [] {
      assert |multiset(b)| == 0;
    } else {
      var i := MatchHead(a, b);
      SumPermute(a[1..], b[..i] + b[i + 1..]);
      SumConcat(b[..i], [b[i]] + b[i + 1..]);
      SumConcat(b[..i], b[i + 1..]);
      assert ([b[i]] + b[i + 1..])[1..] == b[i + 1..];
    }
  }

  lemma {:induction false} SumConcat(a: seq<real>, b: seq<real>)
    ensures Sum(a + b) == Sum(a) + Sum(b)
  {
    if a == [] {
      assert a + b == b;
    } else {
      assert (a + b)[1..] == a[1..] + b;
      SumConcat(a[1..], b);
    }
  }

  // ---- Indices sorted by value.

  function Range(n: nat): (r: seq<int>)
    ensures |r| == n && forall i :: 0 <= i < n ==> r[i] == i
  {
    seq(n, i => i)
  }

  function Key(values: seq<real>, i: int): real {
    if 0 <= i < |values| then values[i] else 0.0
  }

  function ByValue(values: seq<real>): (int, int) -> bool {
    (i, j) => Key(values, i) <= Key(values, j)
  }

  function Picked(values: seq<real>, at: seq<int>): (r: seq<real>)
    ensures |r| == |at|
    ensures forall k :: 0 <= k < |at| ==> r[k] == Key(values, at[k])
  {
    seq(|at|, k requires 0 <= k < |at| => Key(values, at[k]))
  }

  lemma PickedConcat(values: seq<real>, a: seq<int>, b: seq<int>)
    ensures Picked(values, a + b) == Picked(values, a) + Picked(values, b)
  {
  }

  lemma {:induction false} PickedPermutes(values: seq<real>, a: seq<int>, b: seq<int>)
    requires multiset(a) == multiset(b)
    ensures multiset(Picked(values, a)) == multiset(Picked(values, b))
  {
    if a == [] {
      assert |multiset(b)| == 0;
    } else {
      var i := MatchHead(a, b);
      PickedPermutes(values, a[1..], b[..i] + b[i + 1..]);
      PickedConcat(values, b[..i], b[i + 1..]);
      PickedConcat(values, b[..i], [b[i]] + b[i + 1..]);
      PickedConcat(values, [b[i]], b[i + 1..]);
      PickedConcat(values, [a[0]], a[1..]);
      assert [a[0]] + a[1..] == a;
      assert Picked(values, [a[0]]) == Picked(values, [b[i]]);
    }
  }

  /** A permutation of the positions of `values`. */
  ghost predicate Permutes(order: seq<int>, n: nat) {
    && |order| == n && Distinct(order)
    && (forall k :: 0 <= k < n ==> 0 <= order[k] < n)
    && multiset(order) == multiset(Range(n))
  }

  lemma PermutesCovers(order: seq<int>, n: nat, i: int)
    requires Permutes(order, n) && 0 <= i < n
    ensures exists k :: 0 <= k < n && order[k] == i
  {
    assert Range(n)[i] == i;
    assert i in multiset(order);
  }

  lemma SortPermutes(n: nat, le: (int, int) -> bool)
    ensures Permutes(Sort(Range(n), le), n)
  {
    var range := Range(n);
    var order := Sort(range, le);
    DistinctPermutation(range, order);
    forall k | 0 <= k < n ensures 0 <= order[k] < n {
      assert order[k] in multiset(range);
    }
  }

  lemma PermutedValues(values: seq<real>, order: seq<int>)
    requires Permutes(order, |values|)
    ensures multiset(Picked(values, order)) == multiset(values)
  {
    PickedPermutes(values, Range(|values|), order);
    assert Picked(values, Range(|values|)) == values;
  }

  ghost predicate NonDecreasing(values: seq<real>, order: seq<int>)
    requires Permutes(order, |values|)
  {
    forall j, k :: 0 <= j < k < |order| ==> values[order[j]] <= values[order[k]]
  }

  lemma SortedByValue(values: seq<real>)
    ensures Permutes(Sort(Range(|values|), ByValue(values)), |values|)
    ensures NonDecreasing(values, Sort(Range(|values|), ByValue(values)))
  {
    var le := ByValue(values);
    SortPermutes(|values|, le);
    SortIsSorted(Range(|values|), le);
    var order := Sort(Range(|values|), le);
    forall j, k | 0 <= j < k < |order| ensures values[order[j]] <= values[order[k]] {
      assert le(order[j], order[k]);
    }
  }

  /** Positions i..j hold one value, smaller ones come before, greater ones after. */
  ghost predicate MaximalRun(values: seq<real>, order: seq<int>, i: nat, j: nat)
    requires Permutes(order, |values|) && i <= j < |order|
  {
    && (forall k :: 0 <= k < i ==> values[order[k]] < values[order[i]])
    && (forall k :: i <= k <= j ==> values[order[k]] == values[order[i]])
    && (forall k :: j < k < |order| ==> values[order[k]] > values[order[i]])
  }

  lemma BlockCounts(sorted: seq<real>, x: real, i: nat, j: nat)
    requires i <= j < |sorted|
    requires forall k :: 0 <= k < i ==> sorted[k] < x
    requires forall k :: i <= k <= j ==> sorted[k] == x
    requires forall k :: j < k < |sorted| ==> sorted[k] > x
    ensures Below(sorted, x) == i && Ties(sorted, x) == j - i + 1
  {
    assert sorted == sorted[..i] + (sorted[i..j + 1] + sorted[j + 1..]);
    BlocksCount(sorted[..i], sorted[i..j + 1], sorted[j + 1..], x);
  }

  lemma BlocksCount(a: seq<real>, b: seq<real>, c: seq<real>, x: real)
    requires forall k :: 0 <= k < |a| ==> a[k] < x
    requires forall k :: 0 <= k < |b| ==> b[k] == x
    requires forall k :: 0 <= k < |c| ==> c[k] > x
    ensures Below(a + (b + c), x) == |a| && Ties(a + (b + c), x) == |b|
  {
    AllBelow(a, x);
    AllTied(b, x);
    AllAbove(c, x);
    CountsSplit(a, b + c, x);
    CountsSplit(b, c, x);
  }

  /** A maximal run of equal values in sorted position holds exactly the shared rank of its members. */
  lemma RunHasRank(values: seq<real>, order: seq<int>, i: nat, j: nat)
    requires Permutes(order, |values|) && i <= j < |order| && MaximalRun(values, order, i, j)
    ensures Rank(values, values[order[i]]) == (i + j) as real / 2.0 + 1.0
  {
    var x, sorted := values[order[i]], Picked(values, order);
    PermutedValues(values, order);
    CountsPermute(sorted, values, x);
    BlockCounts(sorted, x, i, j);
  }

  ghost predicate RankedUpTo(values: seq<real>, order: seq<int>, ranks: seq<real>, i: nat)
    requires Permutes(order, |values|)
  {
    |ranks| == |values| && i <= |order| && forall k :: 0 <= k < i ==> ranks[order[k]] == Rank(values, values[order[k]])
  }

  /** The inner `for` loop: one shared rank for the whole run. */
  method AssignShared(values: seq<real>, order: seq<int>, ranks0: seq<real>, i: nat, j: nat) returns (ranks: seq<real>)
    requires Permutes(order, |values|) && i <= j < |order|
    requires RankedUpTo(values, order, ranks0, i) && MaximalRun(values, order, i, j)
    ensures RankedUpTo(values, order, ranks, j + 1)
  {
    ranks := ranks0;
    var shared := (i + j) as real / 2.0 + 1.0;
    RunHasRank(values, order, i, j);
    for k := i to j + 1
      invariant RankedUpTo(values, order, ranks, k)
    {
      ranks := ranks[order[k] := shared];
    }
  }

  /** `_average_ranks`: the two-pointer walk over the sorted indices. */
  method AverageRanks(values: seq<real>) returns (ranks: seq<real>)
    ensures |ranks| == |values|
    ensures forall i :: 0 <= i < |values| ==> ranks[i] == Rank(values, values[i])
  {
    var order := Sort(Range(|values|), ByValue(values));
    SortedByValue(values);
    ranks := seq(|values|, _ => 0.0);
    var i := 0;
    while i < |order|
      invariant 0 <= i <= |order| && RankedUpTo(values, order, ranks, i)
      invariant 0 < i < |order| ==> values[order[i - 1]] < values[order[i]]
    {
      var j := i;
      while j + 1 < |order| && values[order[j + 1]] == values[order[i]]
        invariant i <= j < |order|
        invariant forall k :: i <= k <= j ==> values[order[k]] == values[order[i]]
      {
        j := j + 1;
      }
      RunIsMaximal(values, order, i, j);
      ranks := AssignShared(values, order, ranks, i, j);
      i := j + 1;
    }
    forall m | 0 <= m < |values| ensures ranks[m] == Rank(values, values[m]) {
      PermutesCovers(order, |values|, m);
    }
  }

  lemma RunIsMaximal(values: seq<real>, order: seq<int>, i: nat, j: nat)
    requires Permutes(order, |values|) && NonDecreasing(values, order) && i <= j < |order|
    requires 0 < i ==> values[order[i - 1]] < values[order[i]]
    requires forall k :: i <= k <= j ==> values[order[k]] == values[order[i]]
    requires j + 1 < |order| ==> values[order[j + 1]] != values[order[i]]
    ensures MaximalRun(values, order, i, j)
    ensures j + 1 < |order| ==> values[order[j]] < values[order[j + 1]]
  {
    forall k | 0 <= k < i ensures values[order[k]] < values[order[i]] {
      if k < i - 1 { assert values[order[k]] <= values[order[i - 1]]; }
    }
    forall k | j < k < |order| ensures values[order[k]] > values[order[i]] {
      assert values[order[j]] <= values[order[j + 1]];
      if k > j + 1 { assert values[order[j + 1]] <= values[order[k]]; }
    }
  }

  // ---- The ranks of n values always add up to n(n+1)/2.

  function Ranks(values: seq<real>): (r: seq<real>)
    ensures |r| == |values|
    ensures forall i :: 0 <= i < |values| ==> r[i] == Rank(values, values[i])
  {
    RanksWithin(values, values)
  }

  /** The rank in `all` of each member of `part`. */
  function RanksWithin(all: seq<real>, part: seq<real>): (r: seq<real>)
    ensures |r| == |part|
    ensures forall i :: 0 <= i < |part| ==> r[i] == Rank(all, part[i])
  {
    seq(|part|, i requires 0 <= i < |part| => Rank(all, part[i]))
  }

  /** Adding `x` in front moves every rank up by one above it and by one half next to it. */
  lemma {:induction false} RanksShift(x: real, all: seq<real>, part: seq<real>)
    ensures Sum(RanksWithin([x] + all, part))
         == Sum(RanksWithin(all, part)) + Above(part, x) as real + Ties(part, x) as real / 2.0
  {
    if part != [] {
      RanksShift(x, all, part[1..]);
      assert RanksWithin(all, part)[1..] == RanksWithin(all, part[1..]);
      assert RanksWithin([x] + all, part)[1..] == RanksWithin([x] + all, part[1..]);
      assert ([x] + all)[1..] == all;
    }
  }

  lemma {:induction false} EveryoneCounted(s: seq<real>, x: real)
    ensures Below(s, x) + Ties(s, x) + Above(s, x) == |s|
  {
    if s != [] { EveryoneCounted(s[1..], x); }
  }

  /** A new value in front adds exactly its place at the end. */
  lemma RanksOfCons(x: real, rest: seq<real>)
    ensures Sum(Ranks([x] + rest)) == Sum(Ranks(rest)) + |rest| as real + 1.0
  {
    var values := [x] + rest;
    RanksShift(x, rest, rest);
    EveryoneCounted(rest, x);
    assert values[1..] == rest;
    assert Ranks(values)[1..] == RanksWithin(values, rest);
    assert Ranks(values)[0] == Rank(values, x);
    assert Below(values, x) == Below(rest, x) && Ties(values, x) == Ties(rest, x) + 1;
  }

  function Triangular(n: nat): real {
    if n == 0 then 0.0 else Triangular(n - 1) + n as real
  }

  lemma {:induction false} TriangularClosed(n: nat)
    ensures Triangular(n) == n as real * (n as real + 1.0) / 2.0
  {
    if n > 0 {
      TriangularClosed(n - 1);
    }
  }

  lemma {:induction false} RankSumTriangular(values: seq<real>)
    ensures Sum(Ranks(values)) == Triangular(|values|)
  {
    if values == [] {
    } else {
      RankSumTriangular(values[1..]);
      assert values == [values[0]] + values[1..];
      RanksOfCons(values[0], values[1..]);
    }
  }

  lemma RankSum(values: seq<real>)
    ensures Sum(Ranks(values)) == |values| as real * (|values| as real + 1.0) / 2.0
  {
    RankSumTriangular(values);
    TriangularClosed(|values|);
  }

  // ---- Correlation. `root` stands for `math.sqrt`.

  const EPSILON := 0.000000000001

  function Mean(s: seq<real>): real {
    if s == [] then 0.0 else Sum(s) / |s| as real
  }

  function Deviations(s: seq<real>, m: real): (r: seq<real>)
    ensures |r| == |s|
  {
    seq(|s|, i requires 0 <= i < |s| => s[i] - m)
  }

  function Dot(u: seq<real>, v: seq<real>): real
    requires |u| == |v|
  {
    if u == [] then 0.0 else u[0] * v[0] + Dot(u[1..], v[1..])
  }

  /** The quotient at the end of `_pearson`; a true square root of two variances this large is not zero. */
  function Correlation(cov: real, vx: real, vy: real, root: real -> real): real {
    if vx < EPSILON || vy < EPSILON || root(Times(vx, vy)) == 0.0 then 0.0 else cov / root(Times(vx, vy))
  }

  function Times(x: real, y: real): real { x * y }

  function Pearson(xs: seq<real>, ys: seq<real>, root: real -> real): real
    requires |xs| == |ys|
  {
    if |xs| < 2 then 0.0
    else
      var dx, dy := Deviations(xs, Mean(xs)), Deviations(ys, Mean(ys));
      Correlation(Dot(dx, dy), Dot(dx, dx), Dot(dy, dy), root)
  }

  function Spearman(xs: seq<real>, ys: seq<real>, root: real -> real): real
    requires |xs| == |ys|
  {
    Pearson(Ranks(xs), Ranks(ys), root)
  }

  /** The square root taken at `x` is the non-negative one. */
  ghost predicate RootAt(root: real -> real, x: real) {
    root(x) >= 0.0 && root(x) * root(x) == x
  }

  lemma SquareNonneg(x: real)
    ensures x * x >= 0.0
  {
  }

  lemma SquaresOrdered(p: real, q: real)
    requires p >= 0.0 && q * q <= p * p
    ensures -p <= q <= p
  {
    if q > p {
      MulPositive(q - p, q + p);
    } else if -q > p {
      MulPositive(-q - p, -q + p);
    }
  }

  ghost predicate CauchySchwarzHolds(c: real, a: real, b: real) {
    a >= 0.0 && b >= 0.0 && c * c <= a * b
  }

  lemma CrossTermBound(c: real, a: real, b: real, x2: real, y2: real, xy: real)
    requires CauchySchwarzHolds(c, a, b)
    requires x2 >= 0.0 && y2 >= 0.0 && xy * xy == x2 * y2
    ensures 2.0 * (c * xy) <= a * y2 + b * x2
  {
    var u, v, q := a * y2, b * x2, 2.0 * (c * xy);
    MulNonneg(a, y2);
    MulNonneg(b, x2);
    SquareNonneg(u - v);
    MulNonneg(x2, y2);
    MulNonneg(a * b - c * c, x2 * y2);
    assert (u - v) * (u - v) == (u + v) * (u + v) - 4.0 * (u * v);
    assert u * v == (a * b) * (x2 * y2);
    assert q * q == 4.0 * ((c * c) * (xy * xy));
    assert (a * b - c * c) * (x2 * y2) == (a * b) * (x2 * y2) - (c * c) * (x2 * y2);
    SquaresOrdered(u + v, q);
  }

  /** One more pair of deviations keeps the Cauchy-Schwarz inequality. */
  lemma CauchySchwarzStep(c: real, a: real, b: real, x: real, y: real)
    requires CauchySchwarzHolds(c, a, b)
    ensures CauchySchwarzHolds(x * y + c, x * x + a, y * y + b)
  {
    SquareNonneg(x);
    SquareNonneg(y);
    assert (x * y) * (x * y) == (x * x) * (y * y);
    CrossTermBound(c, a, b, x * x, y * y, x * y);
    assert (x * y + c) * (x * y + c) == (x * y) * (x * y) + 2.0 * (c * (x * y)) + c * c;
    assert (x * x + a) * (y * y + b) == (x * x) * (y * y) + (a * (y * y) + b * (x * x)) + a * b;
  }

  lemma {:induction false} CauchySchwarz(u: seq<real>, v: seq<real>)
    requires |u| == |v|
    ensures CauchySchwarzHolds(Dot(u, v), Dot(u, u), Dot(v, v))
  {
    if u != [] {
      CauchySchwarz(u[1..], v[1..]);
      CauchySchwarzStep(Dot(u[1..], v[1..]), Dot(u[1..], u[1..]), Dot(v[1..], v[1..]), u[0], v[0]);
    }
  }

  lemma DivideWithin(q: real, s: real)
    requires s > 0.0 && -s <= q <= s
    ensures -1.0 <= q / s <= 1.0
  {
  }

  lemma CorrelationInRange(cov: real, vx: real, vy: real, root: real -> real)
    requires CauchySchwarzHolds(cov, vx, vy) && RootAt(root, Times(vx, vy))
    ensures -1.0 <= Correlation(cov, vx, vy, root) <= 1.0
  {
    var s := root(Times(vx, vy));
    SquaresOrdered(s, cov);
    if s > 0.0 {
      DivideWithin(cov, s);
    }
  }

  lemma DeviationCorrelation(dx: seq<real>, dy: seq<real>, root: real -> real)
    requires |dx| == |dy| && RootAt(root, Times(Dot(dx, dx), Dot(dy, dy)))
    ensures -1.0 <= Correlation(Dot(dx, dy), Dot(dx, dx), Dot(dy, dy), root) <= 1.0
  {
    CauchySchwarz(dx, dy);
    CorrelationInRange(Dot(dx, dy), Dot(dx, dx), Dot(dy, dy), root);
  }

  /** Whatever the two series, a correlation lies in [-1, 1]. */
  lemma PearsonInRange(xs: seq<real>, ys: seq<real>, root: real -> real)
    requires |xs| == |ys|
    requires forall x: real :: x >= 0.0 ==> RootAt(root, x)
    ensures -1.0 <= Pearson(xs, ys, root) <= 1.0
  {
    var dx, dy := Deviations(xs, Mean(xs)), Deviations(ys, Mean(ys));
    CauchySchwarz(dx, dy);
    MulNonneg(Dot(dx, dx), Dot(dy, dy));
    DeviationCorrelation(dx, dy, root);
  }

  /** A rank correlation is one too, whatever the ties. */
  lemma SpearmanInRange(xs: seq<real>, ys: seq<real>, root: real -> real)
    requires |xs| == |ys|
    requires forall x: real :: x >= 0.0 ==> RootAt(root, x)
    ensures -1.0 <= Spearman(xs, ys, root) <= 1.0
  {
    PearsonInRange(Ranks(xs), Ranks(ys), root);
  }

  // ---- What the correlation measures.

  /** The sum of squared deviations. */
  function Variation(s: seq<real>): real {
    Dot(Deviations(s, Mean(s)), Deviations(s, Mean(s)))
  }

  function Covariation(xs: seq<real>, ys: seq<real>): real
    requires |xs| == |ys|
  {
    Dot(Deviations(xs, Mean(xs)), Deviations(ys, Mean(ys)))
  }

  function Products(u: seq<real>, v: seq<real>): (r: seq<real>)
    requires |u| == |v|
    ensures |r| == |u| && forall i :: 0 <= i < |u| ==> r[i] == Times(u[i], v[i])
  {
    seq(|u|, i requires 0 <= i < |u| => Times(u[i], v[i]))
  }

  lemma {:induction false} DotIsSum(u: seq<real>, v: seq<real>)
    requires |u| == |v|
    ensures Dot(u, v) == Sum(Products(u, v))
  {
    if u != [] {
      DotIsSum(u[1..], v[1..]);
      assert Products(u, v)[1..] == Products(u[1..], v[1..]);
    }
  }

  /** The mean is the one number the deviations from which cancel. */
  lemma {:induction false} DeviationsSum(s: seq<real>, m: real)
    ensures Sum(Deviations(s, m)) == Sum(s) - |s| as real * m
  {
    if s != [] {
      DeviationsSum(s[1..], m);
      OneMore(|s[1..]|, m);
      var d := Deviations(s, m);
      assert d[1..] == Deviations(s[1..], m);
    }
  }

  lemma OneMore(n: nat, m: real)
    ensures (n + 1) as real * m == n as real * m + m
  {
  }

  lemma QuotientTimes(x: real, n: real)
    requires n > 0.0
    ensures x / n * n == x
  {
  }

  lemma DeviationsCancel(s: seq<real>, m: real)
    requires m * |s| as real == Sum(s)
    ensures Sum(Deviations(s, m)) == 0.0
  {
    DeviationsSum(s, m);
  }

  /** `x` is `total` divided among `n`. */
  predicate IsAverage(x: real, total: real, n: nat) {
    x * n as real == total
  }

  lemma AverageIs(total: real, n: nat)
    requires n > 0
    ensures IsAverage(total / n as real, total, n)
  {
  }

  lemma MeanTimes(s: seq<real>)
    requires s != []
    ensures IsAverage(Mean(s), Sum(s), |s|)
  {
    AverageIs(Sum(s), |s|);
  }

  lemma MeanCancels(s: seq<real>)
    requires s != []
    ensures Sum(Deviations(s, Mean(s))) == 0.0
  {
    MeanTimes(s);
    DeviationsCancel(s, Mean(s));
  }

  lemma QuotientSquared(c: real, a: real, b: real, d: real)
    requires d > 0.0 && d * d == a * b
    ensures (c / d) * (c / d) * (a * b) == c * c && (c / d) * c >= 0.0
  {
    var q := c / d;
    assert q * d == c;
    assert (q * q) * (d * d) == (q * d) * (q * d);
    SquareNonneg(q);
    MulNonneg(q * q, d);
    assert q * c == (q * q) * d;
  }

  lemma VariationNonneg(s: seq<real>)
    ensures Variation(s) >= 0.0
  {
    CauchySchwarz(Deviations(s, Mean(s)), Deviations(s, Mean(s)));
  }

  /** The correlation without quotient and root: its square is the share of the variations the covariation explains, its
      sign the sign of the covariation; where one of the series hardly varies it is zero. */
  lemma PearsonMeans(xs: seq<real>, ys: seq<real>, root: real -> real)
    requires |xs| == |ys| && RootAt(root, Times(Variation(xs), Variation(ys)))
    ensures var r, c, vx, vy := Pearson(xs, ys, root), Covariation(xs, ys), Variation(xs), Variation(ys);
      if |xs| >= 2 && vx >= EPSILON && vy >= EPSILON then r * r * (vx * vy) == c * c && r * c >= 0.0 else r == 0.0
  {
    var c, vx, vy := Covariation(xs, ys), Variation(xs), Variation(ys);
    if |xs| >= 2 && vx >= EPSILON && vy >= EPSILON {
      MulPositive(vx, vy);
      assert Times(vx, vy) == vx * vy;
      QuotientSquared(c, vx, vy, root(vx * vy));
    }
  }

  ghost predicate Affine(xs: seq<real>, ys: seq<real>, a: real, b: real) {
    |xs| == |ys| && forall i :: 0 <= i < |xs| ==> ys[i] == a * xs[i] + b
  }

  ghost predicate ScaledBy(u: seq<real>, v: seq<real>, a: real) {
    |u| == |v| && forall i :: 0 <= i < |u| ==> v[i] == a * u[i]
  }

  lemma {:induction false} SumAffine(xs: seq<real>, ys: seq<real>, a: real, b: real)
    requires Affine(xs, ys, a, b)
    ensures Sum(ys) == a * Sum(xs) + |xs| as real * b
  {
    if xs != [] {
      SumAffine(xs[1..], ys[1..], a, b);
    }
  }

  lemma MeanAffine(xs: seq<real>, ys: seq<real>, a: real, b: real)
    requires Affine(xs, ys, a, b) && xs != []
    ensures Mean(ys) == a * Mean(xs) + b
  {
    SumAffine(xs, ys, a, b);
    var n, mx, my := |xs| as real, Mean(xs), Mean(ys);
    assert mx * n == Sum(xs) && my * n == Sum(ys);
    assert (my - (a * mx + b)) * n == Sum(ys) - a * (mx * n) - n * b;
    if my - (a * mx + b) != 0.0 {
      NonzeroProduct(my - (a * mx + b), n);
    }
  }

  lemma NonzeroProduct(x: real, y: real)
    requires x != 0.0 && y != 0.0
    ensures x * y != 0.0
  {
  }

  lemma {:induction false} DotScaled(u: seq<real>, v: seq<real>, w: seq<real>, a: real)
    requires |u| == |v| == |w| && ScaledBy(v, w, a)
    ensures Dot(u, w) == a * Dot(u, v)
  {
    if u != [] {
      DotScaled(u[1..], v[1..], w[1..], a);
      ScaledTerm(u[0], v[0], a, Dot(u[1..], v[1..]));
    }
  }

  lemma ScaledTerm(x: real, y: real, a: real, rest: real)
    ensures x * (a * y) + a * rest == a * (x * y + rest)
  {
  }

  lemma {:induction false} DotSymmetric(u: seq<real>, v: seq<real>)
    requires |u| == |v|
    ensures Dot(u, v) == Dot(v, u)
  {
    if u != [] {
      DotSymmetric(u[1..], v[1..]);
    }
  }

  lemma AffineDeviations(xs: seq<real>, ys: seq<real>, a: real, b: real, mx: real, my: real)
    requires Affine(xs, ys, a, b) && my == a * mx + b
    ensures ScaledBy(Deviations(xs, mx), Deviations(ys, my), a)
  {
    forall i | 0 <= i < |xs| ensures ys[i] - my == a * (xs[i] - mx) {
      assert ys[i] == a * xs[i] + b;
    }
  }

  /** An affine image varies in proportion. */
  lemma AffineVariation(xs: seq<real>, ys: seq<real>, a: real, b: real)
    requires Affine(xs, ys, a, b) && xs != []
    ensures Covariation(xs, ys) == a * Variation(xs) && Variation(ys) == a * Covariation(xs, ys)
  {
    MeanAffine(xs, ys, a, b);
    AffineDeviations(xs, ys, a, b, Mean(xs), Mean(ys));
    var dx, dy := Deviations(xs, Mean(xs)), Deviations(ys, Mean(ys));
    DotScaled(dx, dx, dy, a);
    DotScaled(dy, dx, dy, a);
    DotSymmetric(dy, dx);
  }

  lemma RootOfSquare(root: real -> real, x: real, y: real)
    requires RootAt(root, y) && x >= 0.0 && y == x * x
    ensures root(y) == x
  {
    SquaresOrdered(x, root(y));
    SquaresOrdered(root(y), x);
  }

  /** A series that is an increasing linear image of another correlates with it perfectly, a decreasing one inversely. */
  lemma PearsonOfAffine(xs: seq<real>, ys: seq<real>, a: real, b: real, root: real -> real)
    requires |xs| >= 2 && Affine(xs, ys, a, b) && a != 0.0
    requires Variation(xs) >= EPSILON && Variation(ys) >= EPSILON && RootAt(root, Times(Variation(xs), Variation(ys)))
    ensures Pearson(xs, ys, root) == if a > 0.0 then 1.0 else -1.0
  {
    AffineVariation(xs, ys, a, b);
    var vx, vy := Variation(xs), Variation(ys);
    CorrelationOfAffine(a, vx, vy, Covariation(xs, ys), root);
    assert Pearson(xs, ys, root) == Correlation(Covariation(xs, ys), vx, vy, root);
  }

  lemma CorrelationOfAffine(a: real, vx: real, vy: real, c: real, root: real -> real)
    requires vx >= EPSILON && vy >= EPSILON && a != 0.0 && c == a * vx && vy == a * c && RootAt(root, Times(vx, vy))
    ensures Correlation(c, vx, vy, root) == if a > 0.0 then 1.0 else -1.0
  {
    var s := if a > 0.0 then a else -a;
    var d := s * vx;
    assert Times(vx, vy) == d * d by {
      assert vx * (a * c) == c * c;
    }
    MulPositive(s, vx);
    RootOfSquare(root, d, Times(vx, vy));
    assert c == if a > 0.0 then d else -d;
    OneOver(d);
  }

  lemma OneOver(d: real)
    requires d > 0.0
    ensures d / d == 1.0 && -d / d == -1.0
  {
  }

  // ---- Rank correlation compares orders.

  ghost predicate SameOrder(xs: seq<real>, ys: seq<real>) {
    |xs| == |ys| && forall i, j :: 0 <= i < |xs| && 0 <= j < |xs| ==> (xs[i] < xs[j] <==> ys[i] < ys[j])
  }

  ghost predicate OppositeOrder(xs: seq<real>, ys: seq<real>) {
    |xs| == |ys| && forall i, j :: 0 <= i < |xs| && 0 <= j < |xs| ==> (xs[i] < xs[j] <==> ys[j] < ys[i])
  }

  /** Counting along two lists that compare alike, or oppositely, with `x` and `y`. */
  lemma {:induction false} AlikeCounts(a: seq<real>, x: real, b: seq<real>, y: real)
    requires |a| == |b| && forall i :: 0 <= i < |a| ==> (a[i] < x <==> b[i] < y) && (a[i] == x <==> b[i] == y)
    ensures Below(a, x) == Below(b, y) && Ties(a, x) == Ties(b, y)
  {
    if a != [] { AlikeCounts(a[1..], x, b[1..], y); }
  }

  lemma {:induction false} OppositeCounts(a: seq<real>, x: real, b: seq<real>, y: real)
    requires |a| == |b| && forall i :: 0 <= i < |a| ==> (a[i] > x <==> b[i] < y) && (a[i] == x <==> b[i] == y)
    ensures Above(a, x) == Below(b, y) && Ties(a, x) == Ties(b, y)
  {
    if a != [] { OppositeCounts(a[1..], x, b[1..], y); }
  }

  lemma SameOrderRanks(xs: seq<real>, ys: seq<real>)
    requires SameOrder(xs, ys)
    ensures Ranks(xs) == Ranks(ys)
  {
    forall i | 0 <= i < |xs| ensures Ranks(xs)[i] == Ranks(ys)[i] {
      forall j | 0 <= j < |xs| ensures (xs[j] < xs[i] <==> ys[j] < ys[i]) && (xs[j] == xs[i] <==> ys[j] == ys[i]) {
        assert xs[i] < xs[j] <==> ys[i] < ys[j];
      }
      AlikeCounts(xs, xs[i], ys, ys[i]);
    }
  }

  lemma OppositeOrderRanks(xs: seq<real>, ys: seq<real>)
    requires OppositeOrder(xs, ys)
    ensures Affine(Ranks(xs), Ranks(ys), -1.0, |xs| as real + 1.0)
  {
    forall i | 0 <= i < |xs| ensures Ranks(ys)[i] == -1.0 * Ranks(xs)[i] + (|xs| as real + 1.0) {
      forall j | 0 <= j < |xs| ensures (xs[j] > xs[i] <==> ys[j] < ys[i]) && (xs[j] == xs[i] <==> ys[j] == ys[i]) {
        assert xs[j] < xs[i] <==> ys[i] < ys[j];
      }
      OppositeCounts(xs, xs[i], ys, ys[i]);
      EveryoneCounted(xs, xs[i]);
    }
  }

  lemma {:induction false} BelowTiesCount(s: seq<real>, x: real, y: real)
    requires x < y
    ensures Below(s, x) + Ties(s, x) <= Below(s, y)
  {
    if s != [] { BelowTiesCount(s[1..], x, y); }
  }

  lemma {:induction false} TiedWithItself(s: seq<real>, i: nat)
    requires i < |s|
    ensures Ties(s, s[i]) >= 1
  {
    if i > 0 { TiedWithItself(s[1..], i - 1); }
  }

  /** A greater value is at least one rank higher, so ranks that are not all equal vary. */
  lemma RankRises(s: seq<real>, i: nat, j: nat)
    requires i < |s| && j < |s| && s[i] < s[j]
    ensures Rank(s, s[j]) >= Rank(s, s[i]) + 1.0
  {
    BelowTiesCount(s, s[i], s[j]);
    TiedWithItself(s, i);
    TiedWithItself(s, j);
  }

  lemma {:induction false} SquareInDot(u: seq<real>, i: nat)
    requires i < |u|
    ensures u[i] * u[i] <= Dot(u, u)
  {
    SquareNonneg(u[0]);
    CauchySchwarz(u[1..], u[1..]);
    if i > 0 { SquareInDot(u[1..], i - 1); }
  }

  lemma SpreadVaries(s: seq<real>, i: nat, j: nat)
    requires i < |s| && j < |s| && s[j] >= s[i] + 1.0
    ensures Variation(s) >= EPSILON
  {
    var d := Deviations(s, Mean(s));
    SquareInDot(d, i);
    SquareInDot(d, j);
    var x, y := d[i], d[j];
    assert y >= x + 1.0;
    if y >= 0.5 {
      MulNonneg(y - 0.5, y + 0.5);
    } else {
      MulNonneg(-x - 0.5, -x + 0.5);
    }
  }

  /** Ordering the values alike is rank correlation 1, ordering them the other way round is -1, ties included. */
  lemma SpearmanOfOrders(xs: seq<real>, ys: seq<real>, i: nat, j: nat, root: real -> real)
    requires |xs| == |ys| && i < |xs| && j < |xs| && xs[i] < xs[j]
    requires forall x: real :: x >= 0.0 ==> RootAt(root, x)
    ensures SameOrder(xs, ys) ==> Spearman(xs, ys, root) == 1.0
    ensures OppositeOrder(xs, ys) ==> Spearman(xs, ys, root) == -1.0
  {
    var rx, ry := Ranks(xs), Ranks(ys);
    RankRises(xs, i, j);
    SpreadVaries(rx, i, j);
    VariationNonneg(ry);
    MulNonneg(Variation(rx), Variation(ry));
    if SameOrder(xs, ys) {
      SameOrderRanks(xs, ys);
      assert Affine(rx, ry, 1.0, 0.0);
      PearsonOfAffine(rx, ry, 1.0, 0.0, root);
    }
    if OppositeOrder(xs, ys) {
      OppositeOrderRanks(xs, ys);
      RankRises(ys, j, i);
      SpreadVaries(ry, j, i);
      PearsonOfAffine(rx, ry, -1.0, |xs| as real + 1.0, root);
    }
  }
}
