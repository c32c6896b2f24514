// domain_sdk/factor_backtest.py: expression evaluation, the portfolio and the in-sample boundary.
// Assets are numbered in the panel's name order, NaN is a constructor, `root` stands for `math.sqrt`.

module FactorExpressions {
  import opened RealSums
  import opened FactorStatistics
  import opened Wrappers

  datatype Expr = Field(name: string) | Apply(op: string, window: int, input: Expr)

  datatype Num = NaN | Val(v: real)

  type Matrix = seq<seq<Num>>

  /** One table per field, by asset and bar; `close` is one of them. */
  datatype Panel = Panel(assets: nat, bars: nat, rows: map<string, seq<seq<real>>>)

  datatype BacktestError = PanelMismatch | UnknownField | UnknownOperator | BadWindow | LookbackTooLong | WarmupRegion

  ghost predicate Rectangular(rows: seq<seq<real>>, assets: nat, bars: nat) {
    |rows| == assets && forall a :: 0 <= a < assets ==> |rows[a]| == bars
  }

  /** The checks of `SimulationPanel.__post_init__`, and closes the forward return can divide by. */
  ghost predicate ValidPanel(p: Panel) {
    && p.assets >= 2 && p.bars >= 2
    && "close" in p.rows
    && (forall f :: f in p.rows ==> Rectangular(p.rows[f], p.assets, p.bars))
    && (forall a, t :: 0 <= a < p.assets && 0 <= t < p.bars ==> p.rows["close"][a][t] != 0.0)
  }

  /** `_check_definition`: the first problem along the chain. */
  function CheckDefinition(e: Expr, fields: set<string>): Option<BacktestError> {
    match e
    case Field(name) => if name in fields then None else Some(UnknownField)
    case Apply(op, window, input) =>
      if op !in {"ts_mean", "ts_delta", "rank"} then Some(UnknownOperator)
      else if window < 1 then Some(BadWindow)
      else CheckDefinition(input, fields)
  }

  /** Bars an operator needs before the current one. */
  function Reach(op: string, window: int): int {
    if op == "ts_delta" then window else window - 1
  }

  /** `_lookback`. */
  function Lookback(e: Expr): int {
    match e
    case Field(_) => 0
    case Apply(op, window, input) => Reach(op, window) + Lookback(input)
  }

  lemma {:induction false} LookbackNonneg(e: Expr, fields: set<string>)
    requires CheckDefinition(e, fields).None?
    ensures Lookback(e) >= 0
  {
    if e.Apply? { LookbackNonneg(e.input, fields); }
  }

  predicate AllValues(s: seq<Num>) {
    forall i :: 0 <= i < |s| ==> s[i].Val?
  }

  function Numbers(s: seq<Num>): (r: seq<real>)
    requires AllValues(s)
    ensures |r| == |s| && forall i :: 0 <= i < |s| ==> r[i] == s[i].v
  {
    seq(|s|, i requires 0 <= i < |s| => s[i].v)
  }

  /** What an operator computes from its window, oldest bar first. */
  function Operate(op: string, s: seq<real>): real
    requires s != []
  {
    if op == "ts_mean" then Sum(s) / |s| as real
    else if op == "ts_delta" then s[|s| - 1] - s[0]
    else if |s| > 1 then (Below(s, s[|s| - 1]) as real + 0.5 * (Ties(s, s[|s| - 1]) - 1) as real) / (|s| - 1) as real
    else 0.5
  }

  function Compute(op: string, segment: seq<Num>): Num
    requires segment != []
  {
    if AllValues(segment) then Val(Operate(op, Numbers(segment))) else NaN
  }

  ghost predicate Evaluable(p: Panel, e: Expr, a: nat) {
    ValidPanel(p) && CheckDefinition(e, p.rows.Keys).None? && a < p.assets
  }

  /** The value of an expression at one bar of one asset, from the window of its input. */
  function Value(p: Panel, e: Expr, a: nat, t: nat): Num
    requires Evaluable(p, e, a) && t < p.bars
    decreases e
  {
    match e
    case Field(name) => Val(p.rows[name][a][t])
    case Apply(op, window, input) =>
      var reach := Reach(op, window);
      if t < reach then NaN
      else Compute(op, seq(reach + 1, i requires 0 <= i <= reach => Value(p, input, a, t - reach + i)))
  }

  lemma ValueOfApply(p: Panel, e: Expr, a: nat, t: nat, segment: seq<Num>)
    requires Evaluable(p, e, a) && t < p.bars && e.Apply? && t >= Reach(e.op, e.window)
    requires |segment| == Reach(e.op, e.window) + 1
    requires forall i :: 0 <= i < |segment| ==> segment[i] == Value(p, e.input, a, t - Reach(e.op, e.window) + i)
    ensures Value(p, e, a, t) == Compute(e.op, segment)
  {
    var reach := Reach(e.op, e.window);
    assert segment == seq(reach + 1, i requires 0 <= i <= reach => Value(p, e.input, a, t - reach + i));
  }

  /** The values an operator looks at. */
  ghost function Inputs(p: Panel, e: Expr, a: nat, t: nat): (s: seq<Num>)
    requires Evaluable(p, e, a) && t < p.bars && e.Apply? && t >= Reach(e.op, e.window)
  {
    seq(Reach(e.op, e.window) + 1, i requires 0 <= i <= Reach(e.op, e.window) => Value(p, e.input, a, t - Reach(e.op, e.window) + i))
  }

  /** A factor value exists at bar t exactly when t reaches the total lookback. */
  lemma {:induction false} DefinedAfterLookback(p: Panel, e: Expr, a: nat, t: nat)
    requires Evaluable(p, e, a) && t < p.bars
    ensures Value(p, e, a, t).Val? <==> t >= Lookback(e)
  {
    if e.Apply? {
      LookbackNonneg(e.input, p.rows.Keys);
      if t >= Reach(e.op, e.window) {
        var first := t - Reach(e.op, e.window);
        var segment := Inputs(p, e, a, t);
        forall i | 0 <= i < |segment| ensures segment[i].Val? <==> first + i >= Lookback(e.input) {
          DefinedAfterLookback(p, e.input, a, first + i);
        }
        ValueOfApply(p, e, a, t, segment);
        assert segment[0].Val? <==> first >= Lookback(e.input);
      }
    }
  }

  // ---- What the operators compute.

  /** The number at bar `t`; only asked where the value exists. */
  function NumberAt(p: Panel, e: Expr, a: nat, t: nat): real
    requires Evaluable(p, e, a) && t < p.bars
  {
    if Value(p, e, a, t).Val? then Value(p, e, a, t).v else 0.0
  }

  /** The input's numbers on the `n` bars up to and including `t`. */
  function Window(p: Panel, e: Expr, a: nat, t: nat, n: nat): (s: seq<real>)
    requires Evaluable(p, e, a) && t < p.bars && n <= t + 1
    ensures |s| == n && forall i :: 0 <= i < n ==> s[i] == NumberAt(p, e, a, t + 1 - n + i)
  {
    seq(n, i requires 0 <= i < n => NumberAt(p, e, a, t + 1 - n + i))
  }

  lemma {:induction false} BelowCounts(s: seq<real>, x: real)
    ensures Below(s, x) == |set i | 0 <= i < |s| && s[i] < x|
    ensures Ties(s, x) == |set i | 0 <= i < |s| && s[i] == x|
  {
    if s != [] {
      var front, last := s[..|s| - 1], s[|s| - 1];
      BelowCounts(front, x);
      CountsSplit(front, [last], x);
      assert s == front + [last];
      var b, c := set i | 0 <= i < |front| && front[i] < x, set i | 0 <= i < |front| && front[i] == x;
      assert (set i | 0 <= i < |s| && s[i] < x) == if last < x then b + {|s| - 1} else b;
      assert (set i | 0 <= i < |s| && s[i] == x) == if last == x then c + {|s| - 1} else c;
    }
  }

  lemma OperatedWindow(p: Panel, e: Expr, a: nat, t: nat)
    requires Evaluable(p, e, a) && t < p.bars && e.Apply? && t >= Lookback(e)
    ensures Reach(e.op, e.window) >= 0 && t >= Reach(e.op, e.window) && Evaluable(p, e.input, a)
    ensures NumberAt(p, e, a, t) == Operate(e.op, Window(p, e.input, a, t, Reach(e.op, e.window) + 1))
  {
    LookbackNonneg(e.input, p.rows.Keys);
    var reach := Reach(e.op, e.window);
    var segment := Inputs(p, e, a, t);
    forall i | 0 <= i < |segment| ensures segment[i].Val? {
      DefinedAfterLookback(p, e.input, a, t - reach + i);
    }
    ValueOfApply(p, e, a, t, segment);
    assert Numbers(segment) == Window(p, e.input, a, t, reach + 1);
  }

  /** ts_mean averages the window. */
  lemma AverageOperator(p: Panel, e: Expr, a: nat, t: nat)
    requires Evaluable(p, e, a) && t < p.bars && e.Apply? && t >= Lookback(e) && e.op == "ts_mean"
    ensures Evaluable(p, e.input, a) && e.window <= t + 1
    ensures IsAverage(NumberAt(p, e, a, t), Sum(Window(p, e.input, a, t, e.window)), e.window)
  {
    OperatedWindow(p, e, a, t);
    AverageIs(Sum(Window(p, e.input, a, t, e.window)), e.window);
  }

  /** ts_delta is the change since `window` bars ago. */
  lemma DeltaOperator(p: Panel, e: Expr, a: nat, t: nat)
    requires Evaluable(p, e, a) && t < p.bars && e.Apply? && t >= Lookback(e) && e.op == "ts_delta"
    ensures Evaluable(p, e.input, a) && e.window <= t
    ensures NumberAt(p, e, a, t) == NumberAt(p, e.input, a, t) - NumberAt(p, e.input, a, t - e.window)
  {
    OperatedWindow(p, e, a, t);
  }

  /** rank is the share of the other bars of the window with a smaller value, equal ones counting half. */
  lemma RankOperator(p: Panel, e: Expr, a: nat, t: nat)
    requires Evaluable(p, e, a) && t < p.bars && e.Apply? && t >= Lookback(e) && e.op == "rank"
    ensures Evaluable(p, e.input, a) && e.window <= t + 1
    ensures var s := Window(p, e.input, a, t, e.window); var now := NumberAt(p, e.input, a, t);
      if e.window == 1 then NumberAt(p, e, a, t) == 0.5
      else ShareOf(NumberAt(p, e, a, t), |set i | 0 <= i < |s| && s[i] < now|, |set i | 0 <= i < |s| && s[i] == now|, e.window - 1)
  {
    OperatedWindow(p, e, a, t);
    var s := Window(p, e.input, a, t, e.window);
    var now := s[|s| - 1];
    BelowCounts(s, now);
    if e.window > 1 {
      HalvesShare(Below(s, now), Ties(s, now), e.window - 1);
    }
  }

  /** `x` times all `others` is the number of smaller ones and half the number of equal ones but itself. */
  predicate ShareOf(x: real, smaller: nat, equal: nat, others: int) {
    2.0 * x * others as real == 2.0 * smaller as real + equal as real - 1.0
  }

  lemma HalvesShare(smaller: nat, equal: nat, others: int)
    requires others > 0
    ensures ShareOf((smaller as real + 0.5 * (equal - 1) as real) / others as real, smaller, equal, others)
  {
    QuotientTimes(smaller as real + 0.5 * (equal - 1) as real, others as real);
  }

  /** The operators of a chain, and the field it ends in. */
  function Operators(e: Expr): seq<(string, int)> {
    if e.Field? then [] else [(e.op, e.window)] + Operators(e.input)
  }

  function Leaf(e: Expr): string {
    if e.Field? then e.name else Leaf(e.input)
  }

  /** A definition is accepted exactly when it ends in a known field and has only known operators with positive windows. */
  lemma {:induction false} AcceptedDefinitions(e: Expr, fields: set<string>)
    ensures CheckDefinition(e, fields).None? <==>
      Leaf(e) in fields && forall o :: o in Operators(e) ==> (o.0 == "ts_mean" || o.0 == "ts_delta" || o.0 == "rank") && o.1 >= 1
  {
    if e.Apply? {
      AcceptedDefinitions(e.input, fields);
      assert (e.op, e.window) in Operators(e);
    }
  }

  ghost predicate SameShape(p: Panel, q: Panel) {
    && ValidPanel(p) && ValidPanel(q)
    && p.assets == q.assets && p.bars == q.bars && p.rows.Keys == q.rows.Keys
  }

  ghost predicate SameCell(p: Panel, q: Panel, f: string, a: nat, t: nat)
    requires SameShape(p, q) && a < p.assets && t < p.bars && f in p.rows
  {
    p.rows[f][a][t] == q.rows[f][a][t]
  }

  /** The two panels show asset `a` the same data on bars [lo, hi). */
  ghost predicate AgreeOn(p: Panel, q: Panel, a: nat, lo: int, hi: int)
    requires SameShape(p, q) && a < p.assets
  {
    forall f, t: nat :: f in p.rows && t < p.bars && lo <= t < hi ==> SameCell(p, q, f, a, t)
  }

  /** A value depends on nothing outside its own lookback window. */
  lemma {:induction false} ValueIsLocal(p: Panel, q: Panel, e: Expr, a: nat, t: nat)
    requires SameShape(p, q) && Evaluable(p, e, a) && t < p.bars
    requires AgreeOn(p, q, a, t - Lookback(e), t + 1)
    ensures Value(p, e, a, t) == Value(q, e, a, t)
  {
    match e
    case Field(name) =>
      assert SameCell(p, q, name, a, t);
    case Apply(op, window, input) =>
      if t >= Reach(op, window) {
        LookbackNonneg(input, p.rows.Keys);
        var first := t - Reach(op, window);
        var segment := Inputs(p, e, a, t);
        forall i | 0 <= i < |segment| ensures segment[i] == Value(q, input, a, first + i) {
          ValueIsLocal(p, q, input, a, first + i);
        }
        ValueOfApply(p, e, a, t, segment);
        ValueOfApply(q, e, a, t, segment);
      }
  }

  /** `_evaluate_series`: one list per operator, filled bar by bar. */
  method EvaluateSeries(p: Panel, e: Expr, a: nat) returns (output: seq<Num>)
    requires Evaluable(p, e, a)
    ensures |output| == p.bars
    ensures forall t :: 0 <= t < p.bars ==> output[t] == Value(p, e, a, t)
    decreases e
  {
    match e
    case Field(name) =>
      var row := p.rows[name][a];
      output := seq(|row|, t requires 0 <= t < |row| => Val(row[t]));
    case Apply(op, window, input) =>
      var child := EvaluateSeries(p, input, a);
      output := seq(|child|, _ => NaN);
      for t := 0 to |child|
        invariant |output| == p.bars
        invariant forall u :: 0 <= u < t ==> output[u] == Value(p, e, a, u)
        invariant forall u :: t <= u < |child| ==> output[u] == NaN
      {
        var start := if op != "ts_delta" then t - window + 1 else t - window;
        if start >= 0 {
          var segment := child[start..t + 1];
          ValueOfApply(p, e, a, t, segment);
          if AllValues(segment) {
            output := output[t := Compute(op, segment)];
          }
        }
      }
  }
}

/** `_long_short`: a rebalanced quantile portfolio, long the top leg and short the bottom one. */
module FactorPortfolio {
  import opened Sorting
  import opened RealSums
  import opened FactorStatistics

  /** Assets ordered by (factor value, name). */
  function ByFactor(values: seq<real>): (int, int) -> bool {
    (i, j) => Key(values, i) < Key(values, j) || (Key(values, i) == Key(values, j) && i <= j)
  }

  function Ordered(values: seq<real>): seq<int> {
    Sort(Range(|values|), ByFactor(values))
  }

  lemma OrderedFacts(values: seq<real>)
    ensures Permutes(Ordered(values), |values|)
    ensures NonDecreasing(values, Ordered(values))
  {
    var le, order := ByFactor(values), Ordered(values);
    SortPermutes(|values|, le);
    SortIsSorted(Range(|values|), le);
    forall j, k | 0 <= j < k < |order| ensures values[order[j]] <= values[order[k]] {
      assert le(order[j], order[k]);
    }
  }

  /** Assets per leg: the quantile, at least one and at most half. */
  function Leg(n: nat, quantile: real): int {
    var wanted := (n as real * quantile).Floor;
    var capped := if wanted < n / 2 then wanted else n / 2;
    if capped > 1 then capped else 1
  }

  function LegWeight(leg: nat): real
    requires leg > 0
  {
    1.0 / leg as real
  }

  function TargetOf(order: seq<int>, leg: nat, w: real, asset: int): real
    requires 2 * leg <= |order|
  {
    if asset in order[..leg] then -w
    else if asset in order[|order| - leg..] then w
    else 0.0
  }

  function TargetWith(values: seq<real>, leg: nat, w: real): (r: seq<real>)
    requires 2 * leg <= |values|
    ensures |r| == |values|
    ensures forall a :: 0 <= a < |values| ==> r[a] == TargetOf(Ordered(values), leg, w, a)
  {
    var order := Ordered(values);
    seq(|values|, a requires 0 <= a < |values| => TargetOf(order, leg, w, a))
  }

  /** Target weights by asset. */
  function Target(values: seq<real>, leg: nat): (r: seq<real>)
    requires 0 < leg && 2 * leg <= |values|
    ensures |r| == |values|
  {
    TargetWith(values, leg, LegWeight(leg))
  }

  function AbsDifferences(u: seq<real>, v: seq<real>): (r: seq<real>)
    requires |u| == |v|
    ensures |r| == |u|
    ensures forall i :: 0 <= i < |u| ==> r[i] == Magnitude(u[i] - v[i])
  {
    seq(|u|, i requires 0 <= i < |u| => Magnitude(u[i] - v[i]))
  }

  function Magnitude(x: real): real { if x < 0.0 then -x else x }

  /** What a rebalance trades. */
  function Traded(target: seq<real>, weights: seq<real>): real
    requires |target| == |weights|
  {
    Sum(AbsDifferences(target, weights))
  }

  function Zeros(n: nat): (r: seq<real>)
    ensures |r| == n && forall i :: 0 <= i < n ==> r[i] == 0.0
  {
    seq(n, _ => 0.0)
  }

  /** The three assignments of the rebalance loop: zero, then the top leg, then the bottom leg. */
  method AssignTarget(values: seq<real>, leg: nat) returns (target: seq<real>)
    requires 0 < leg && 2 * leg <= |values|
    ensures target == Target(values, leg)
  {
    var order, w := Ordered(values), LegWeight(leg);
    OrderedFacts(values);
    var n := |values|;
    target := Zeros(n);
    for k := n - leg to n
      invariant |target| == n
      invariant forall a :: 0 <= a < n ==> target[a] == if a in order[n - leg..k] then w else 0.0
    {
      assert order[n - leg..k + 1] == order[n - leg..k] + [order[k]];
      target := target[order[k] := w];
    }
    assert order[n - leg..n] == order[n - leg..];
    ghost var longs := target;
    for k := 0 to leg
      invariant |target| == n
      invariant forall a :: 0 <= a < n ==> target[a] == if a in order[..k] then -w else longs[a]
    {
      assert order[..k + 1] == order[..k] + [order[k]];
      target := target[order[k] := -w];
    }
  }

  // ---- What the target weights guarantee.

  ghost predicate TwoLegged(sorted: seq<real>, leg: nat, w: real) {
    && 2 * leg <= |sorted|
    && (forall k :: 0 <= k < leg ==> sorted[k] == -w)
    && (forall k :: leg <= k < |sorted| - leg ==> sorted[k] == 0.0)
    && (forall k :: |sorted| - leg <= k < |sorted| ==> sorted[k] == w)
  }

  function Multiple(n: nat, c: real): real { n as real * c }

  lemma {:induction false} SumOfConstant(s: seq<real>, c: real)
    requires forall k :: 0 <= k < |s| ==> s[k] == c
    ensures Sum(s) == Multiple(|s|, c)
  {
    if s != [] { SumOfConstant(s[1..], c); }
  }

  lemma InSlice(order: seq<int>, lo: nat, hi: nat, k: nat)
    requires lo <= hi <= |order| && k < |order| && Distinct(order)
    ensures order[k] in order[lo..hi] <==> lo <= k < hi
  {
    if lo <= k < hi { assert order[lo..hi][k - lo] == order[k]; }
  }

  /** Weights read in factor order: a short block, a flat block, a long block. */
  lemma TargetInOrder(values: seq<real>, leg: nat, w: real)
    requires 2 * leg <= |values|
    ensures TwoLegged(Picked(TargetWith(values, leg, w), Ordered(values)), leg, w)
  {
    var order, target := Ordered(values), TargetWith(values, leg, w);
    OrderedFacts(values);
    var sorted := Picked(target, order);
    assert order[|order| - leg..|order|] == order[|order| - leg..] && order[0..leg] == order[..leg];
    forall k: nat | k < |order|
      ensures sorted[k] == if k < leg then -w else if k >= |order| - leg then w else 0.0
    {
      InSlice(order, 0, leg, k);
      InSlice(order, |order| - leg, |order|, k);
      assert sorted[k] == TargetOf(order, leg, w, order[k]);
    }
  }

  lemma LegCancels(leg: nat)
    requires leg > 0
    ensures Multiple(leg, LegWeight(leg)) == 1.0 && LegWeight(leg) > 0.0
  {
  }

  lemma SplitInThree(s: seq<real>, i: nat, j: nat)
    requires i <= j <= |s|
    ensures s == s[..i] + (s[i..j] + s[j..])
  {
  }

  lemma BlocksSum(a: seq<real>, b: seq<real>, c: seq<real>, first: real, last: real)
    requires forall k :: 0 <= k < |a| ==> a[k] == first
    requires forall k :: 0 <= k < |b| ==> b[k] == 0.0
    requires forall k :: 0 <= k < |c| ==> c[k] == last
    ensures Sum(a + (b + c)) == Multiple(|a|, first) + Multiple(|c|, last)
  {
    SumOfConstant(a, first);
    SumOfConstant(b, 0.0);
    SumOfConstant(c, last);
    SumConcat(b, c);
    SumConcat(a, b + c);
  }

  lemma ThreeBlocks(s: seq<real>, leg: nat, first: real, last: real)
    requires 2 * leg <= |s|
    requires forall k :: 0 <= k < leg ==> s[k] == first
    requires forall k :: leg <= k < |s| - leg ==> s[k] == 0.0
    requires forall k :: |s| - leg <= k < |s| ==> s[k] == last
    ensures Sum(s) == Multiple(leg, first) + Multiple(leg, last)
  {
    SplitInThree(s, leg, |s| - leg);
    BlocksSum(s[..leg], s[leg..|s| - leg], s[|s| - leg..], first, last);
  }

  function Magnitudes(s: seq<real>): (r: seq<real>)
    ensures |r| == |s| && forall i :: 0 <= i < |s| ==> r[i] == Magnitude(s[i])
  {
    seq(|s|, i requires 0 <= i < |s| => Magnitude(s[i]))
  }

  lemma TwoLeggedTotals(sorted: seq<real>, leg: nat, w: real)
    requires TwoLegged(sorted, leg, w) && w > 0.0 && Multiple(leg, w) == 1.0
    ensures Sum(sorted) == 0.0 && Sum(Magnitudes(sorted)) == 2.0
  {
    ThreeBlocks(sorted, leg, -w, w);
    ThreeBlocks(Magnitudes(sorted), leg, w, w);
    assert Multiple(leg, -w) == -Multiple(leg, w);
  }

  lemma BalancedWith(values: seq<real>, leg: nat, w: real)
    requires 2 * leg <= |values| && w > 0.0 && Multiple(leg, w) == 1.0
    ensures Sum(TargetWith(values, leg, w)) == 0.0
    ensures Sum(Magnitudes(TargetWith(values, leg, w))) == 2.0
  {
    var target, order := TargetWith(values, leg, w), Ordered(values);
    OrderedFacts(values);
    TargetInOrder(values, leg, w);
    var sorted := Picked(target, order);
    TwoLeggedTotals(sorted, leg, w);
    PermutedValues(target, order);
    SumPermute(sorted, target);
    PermutedValues(Magnitudes(target), order);
    SumPermute(Picked(Magnitudes(target), order), Magnitudes(target));
    assert Picked(Magnitudes(target), order) == Magnitudes(sorted);
  }

  /** The portfolio is dollar neutral and its gross exposure is exactly 2. */
  lemma TargetBalanced(values: seq<real>, leg: nat)
    requires 0 < leg && 2 * leg <= |values|
    ensures Sum(Target(values, leg)) == 0.0
    ensures Sum(Magnitudes(Target(values, leg))) == 2.0
  {
    LegCancels(leg);
    BalancedWith(values, leg, LegWeight(leg));
  }

  /** Every long asset ranks at least as high as every short one. */
  lemma LongsAboveShorts(values: seq<real>, leg: nat, long: nat, short: nat)
    requires 0 < leg && 2 * leg <= |values| && long < |values| && short < |values|
    requires Target(values, leg)[long] > 0.0 && Target(values, leg)[short] < 0.0
    ensures values[short] <= values[long]
  {
    var order := Ordered(values);
    OrderedFacts(values);
    LegCancels(leg);
    var i :| 0 <= i < leg && order[..leg][i] == short;
    var j :| 0 <= j < leg && order[|order| - leg..][j] == long;
    assert order[i] == short && order[|order| - leg + j] == long;
  }

  lemma {:induction false} TradedAtMostExposures(target: seq<real>, weights: seq<real>)
    requires |target| == |weights|
    ensures 0.0 <= Traded(target, weights) <= Sum(Magnitudes(target)) + Sum(Magnitudes(weights))
  {
    if target != [] {
      TradedAtMostExposures(target[1..], weights[1..]);
      assert AbsDifferences(target, weights)[1..] == AbsDifferences(target[1..], weights[1..]);
      assert Magnitudes(target)[1..] == Magnitudes(target[1..]);
      assert Magnitudes(weights)[1..] == Magnitudes(weights[1..]);
    }
  }

  /** Trading from one target to the next, a quarter of the traded volume lies in [0, 1]. */
  lemma TurnoverNormalised(values: seq<real>, previous: seq<real>, leg: nat)
    requires |values| == |previous| && 0 < leg && 2 * leg <= |values|
    ensures 0.0 <= Traded(Target(values, leg), Target(previous, leg)) / 4.0 <= 1.0
  {
    TargetBalanced(values, leg);
    TargetBalanced(previous, leg);
    TradedAtMostExposures(Target(values, leg), Target(previous, leg));
  }

  /** Every asset outside the long leg comes before all of it in (factor, name) order, and behind all of the short leg. */
  lemma LegsAreExtremes(values: seq<real>, leg: nat, x: nat, y: nat)
    requires 0 < leg && 2 * leg <= |values| && x < |values| && y < |values|
    ensures Target(values, leg)[x] > 0.0 >= Target(values, leg)[y] ==> Precedes(values, y, x)
    ensures Target(values, leg)[x] < 0.0 <= Target(values, leg)[y] ==> Precedes(values, x, y)
  {
    OrderedFacts(values);
    var i := PlaceOf(values, leg, x);
    var j := PlaceOf(values, leg, y);
    if i < j {
      OrderedPlaces(values, i, j);
    } else if j < i {
      OrderedPlaces(values, j, i);
    }
  }

  predicate Precedes(values: seq<real>, x: nat, y: nat)
    requires x < |values| && y < |values|
  {
    values[x] < values[y] || (values[x] == values[y] && x < y)
  }

  lemma OrderedPlaces(values: seq<real>, i: nat, j: nat)
    requires i < j < |values| && Permutes(Ordered(values), |values|)
    ensures Precedes(values, Ordered(values)[i], Ordered(values)[j])
  {
    var order := Ordered(values);
    SortIsSorted(Range(|values|), ByFactor(values));
    assert ByFactor(values)(order[i], order[j]);
  }

  /** Where an asset stands in the factor order, and what that makes of it. */
  lemma PlaceOf(values: seq<real>, leg: nat, x: nat) returns (i: nat)
    requires 0 < leg && 2 * leg <= |values| && x < |values| && Permutes(Ordered(values), |values|)
    ensures i < |values| && Ordered(values)[i] == x
    ensures Target(values, leg)[x] < 0.0 <==> i < leg
    ensures Target(values, leg)[x] > 0.0 <==> i >= |values| - leg
  {
    var order := Ordered(values);
    LegCancels(leg);
    PermutesCovers(order, |values|, x);
    i :| 0 <= i < |values| && order[i] == x;
    InLegs(order, leg, i);
  }

  lemma InLegs(order: seq<int>, leg: nat, i: nat)
    requires Distinct(order) && 2 * leg <= |order| && i < |order|
    ensures order[i] in order[..leg] <==> i < leg
    ensures order[i] in order[|order| - leg..] <==> i >= |order| - leg
  {
    InSlice(order, 0, leg, i);
    InSlice(order, |order| - leg, |order|, i);
    assert order[0..leg] == order[..leg] && order[|order| - leg..|order|] == order[|order| - leg..];
  }

  /** Every weight is one part of `leg`, long or short, or nothing. */
  lemma TargetWeights(values: seq<real>, leg: nat, x: nat)
    requires 0 < leg && 2 * leg <= |values| && x < |values|
    ensures var w := Target(values, leg)[x]; w == 0.0 || w * leg as real == 1.0 || w * leg as real == -1.0
  {
  }

  /** The volume traded is the sum of all changes of weight, taken as positive. */
  lemma TradedMeans(target: seq<real>, weights: seq<real>, d: seq<real>)
    requires |target| == |weights| == |d|
    requires forall i :: 0 <= i < |d| ==> d[i] >= 0.0 && (d[i] == target[i] - weights[i] || d[i] == weights[i] - target[i])
    ensures Traded(target, weights) == Sum(d)
  {
    assert AbsDifferences(target, weights) == d;
  }

  /** The leg is the largest whole number of assets within the quantile, or a single one. */
  lemma LegMeans(n: nat, quantile: real)
    requires n >= 2 && 0.0 < quantile <= 0.5
    ensures var leg := Leg(n, quantile); (leg == 1 || leg as real <= n as real * quantile) && n as real * quantile < leg as real + 1.0
  {
    AtMostHalf(n, quantile);
    assert (n as real * quantile).Floor <= n / 2;
  }

  lemma AtMostHalf(n: nat, quantile: real)
    requires quantile <= 0.5
    ensures n as real * quantile <= n as real / 2.0
  {
  }

  lemma LegFits(n: nat, quantile: real)
    requires n >= 2 && 0.0 < quantile <= 0.5
    ensures 0 < Leg(n, quantile) && 2 * Leg(n, quantile) <= n
  {
  }
}

module FactorBacktest {
  import opened Wrappers
  import opened RealArithmetic
  import opened RealSums
  import opened FactorStatistics
  import opened FactorExpressions
  import opened FactorPortfolio

  const TRADING_DAYS := 252

  datatype Spec = Spec(
    assets: nat, totalBars: int, inSampleBars: int, maxWindow: int, horizon: int,
    costBps: real, slippageBps: real, quantile: real, recentBars: int, bucketBars: int, minOosPoints: int)
  {
    /** The checks of `BacktestSpec.__post_init__`. */
    predicate Valid() {
      && assets >= 2 && totalBars >= 100
      && 0 < inSampleBars < totalBars
      && maxWindow >= 1 && horizon >= 1
      && InSampleEnd() - maxWindow >= 30
      && minOosPoints >= 1 && OosEnd() - inSampleBars >= minOosPoints
      && 1 <= recentBars <= InSampleEnd() - maxWindow
      && 0.0 < quantile <= 0.5
      && costBps >= 0.0 && slippageBps >= 0.0
      && bucketBars >= 5
    }

    /** In-sample evaluation points are [maxWindow, InSampleEnd()). */
    function InSampleEnd(): int { inSampleBars - horizon }

    /** Out-of-sample evaluation points are [inSampleBars, OosEnd()). */
    function OosEnd(): int { totalBars - horizon }
  }

  datatype InSample = InSample(
    ic: real, icStd: real, icIr: real, yearPositiveRatio: real, sharpe: real, turnover: real,
    recentIc: real, icCorrelation: real, rebalances: nat)

  datatype Report = Report(inSample: InSample, oosIc: real, oosIcStd: real)

  function Std(s: seq<real>, root: real -> real): real {
    if |s| < 2 then 0.0 else root(Dot(Deviations(s, Mean(s)), Deviations(s, Mean(s))) / (|s| - 1) as real)
  }

  function RatioOf(numerator: real, denominator: real): real {
    if denominator > EPSILON then numerator / denominator else 0.0
  }

  // ---- Tables by asset and bar.

  function FactorMatrix(p: Panel, e: Expr): (m: Matrix)
    requires ValidPanel(p) && CheckDefinition(e, p.rows.Keys).None?
    ensures IsTable(m, p.assets, p.bars)
    ensures forall a: nat, t: nat :: a < p.assets && t < p.bars ==> m[a][t] == Value(p, e, a, t)
  {
    seq(p.assets, a requires 0 <= a < p.assets => seq(p.bars, t requires 0 <= t < p.bars => Value(p, e, a, t)))
  }

  /** `_forward_returns`. */
  function ForwardReturns(p: Panel, horizon: int): (m: Matrix)
    requires ValidPanel(p) && horizon >= 1
    ensures IsTable(m, p.assets, p.bars)
    ensures forall a: nat, t: nat :: a < p.assets && t < p.bars ==> m[a][t] == ForwardReturn(p, horizon, a, t)
  {
    seq(p.assets, a requires 0 <= a < p.assets => seq(p.bars, t requires 0 <= t < p.bars => ForwardReturn(p, horizon, a, t)))
  }

  function ForwardReturn(p: Panel, horizon: int, a: nat, t: nat): Num
    requires ValidPanel(p) && horizon >= 1 && a < p.assets && t < p.bars
  {
    if t + horizon < p.bars then Val(p.rows["close"][a][t + horizon] / p.rows["close"][a][t] - 1.0) else NaN
  }

  /** The return is what the close is worth `horizon` bars later, beyond its price now; it exists while there are such bars. */
  lemma ForwardReturnMeans(p: Panel, horizon: int, a: nat, t: nat)
    requires ValidPanel(p) && horizon >= 1 && a < p.assets && t < p.bars
    ensures ForwardReturn(p, horizon, a, t).Val? <==> t + horizon < p.bars
    ensures t + horizon < p.bars ==>
      p.rows["close"][a][t + horizon] == p.rows["close"][a][t] * (1.0 + ForwardReturn(p, horizon, a, t).v)
  {
    if t + horizon < p.bars {
      RelativeChange(p.rows["close"][a][t + horizon], p.rows["close"][a][t]);
    }
  }

  lemma RelativeChange(later: real, now: real)
    requires now != 0.0
    ensures later == now * (1.0 + (later / now - 1.0))
  {
  }

  /** The sample deviation, without root and quotient. */
  lemma StdMeans(s: seq<real>, root: real -> real)
    requires |s| >= 2 ==> RootAt(root, Variation(s) / (|s| - 1) as real)
    ensures Std(s, root) >= 0.0 && (|s| < 2 ==> Std(s, root) == 0.0)
    ensures |s| >= 2 ==> Std(s, root) * Std(s, root) * (|s| - 1) as real == Variation(s)
  {
    if |s| >= 2 {
      QuotientTimes(Variation(s), (|s| - 1) as real);
    }
  }

  predicate IsRatio(x: real, numerator: real, denominator: real) {
    if denominator > EPSILON then x * denominator == numerator else x == 0.0
  }

  lemma RatioMeans(numerator: real, denominator: real)
    ensures IsRatio(RatioOf(numerator, denominator), numerator, denominator)
  {
  }

  ghost predicate IsTable(m: Matrix, assets: nat, bars: nat) {
    |m| == assets && forall a :: 0 <= a < assets ==> |m[a]| == bars
  }

  function Column(m: Matrix, t: nat): (c: seq<Num>)
    requires forall a :: 0 <= a < |m| ==> t < |m[a]|
    ensures |c| == |m| && forall a :: 0 <= a < |m| ==> c[a] == m[a][t]
  {
    seq(|m|, a requires 0 <= a < |m| => m[a][t])
  }

  /** A column as plain numbers; the caller has ruled NaN out. */
  function ColumnNumbers(m: Matrix, t: nat): (c: seq<real>)
    requires forall a :: 0 <= a < |m| ==> t < |m[a]|
    ensures |c| == |m|
  {
    seq(|m|, a requires 0 <= a < |m| => if m[a][t].Val? then m[a][t].v else 0.0)
  }

  /** The two tables agree on every bar in [lo, hi). */
  ghost predicate SameColumns(m: Matrix, n: Matrix, assets: nat, bars: nat, lo: int, hi: int) {
    && IsTable(m, assets, bars) && IsTable(n, assets, bars)
    && forall a: nat, t: nat :: a < assets && t < bars && lo <= t < hi ==> m[a][t] == n[a][t]
  }

  lemma SameColumn(m: Matrix, n: Matrix, assets: nat, bars: nat, lo: int, hi: int, t: nat)
    requires SameColumns(m, n, assets, bars, lo, hi) && lo <= t < hi && t < bars
    ensures Column(m, t) == Column(n, t) && ColumnNumbers(m, t) == ColumnNumbers(n, t)
  {
  }

  // ---- Information coefficients.

  /** `_cross_ic`: `None` is the warm-up error. */
  function CrossIc(factor: Matrix, forward: Matrix, t: nat, root: real -> real): Option<real>
    requires |factor| == |forward|
    requires forall a :: 0 <= a < |factor| ==> t < |factor[a]| && t < |forward[a]|
  {
    var xs, ys := Column(factor, t), Column(forward, t);
    if AllValues(xs) && AllValues(ys) then Some(Spearman(Numbers(xs), Numbers(ys), root)) else None
  }

  function IcSeries(factor: Matrix, forward: Matrix, lo: nat, hi: int, root: real -> real): (r: Option<seq<real>>)
    requires |factor| == |forward|
    requires forall a :: 0 <= a < |factor| ==> hi <= |factor[a]| && hi <= |forward[a]|
    ensures r.Some? ==> |r.value| == if lo < hi then hi - lo else 0
    decreases hi - lo
  {
    if lo >= hi then Some([])
    else
      var first := CrossIc(factor, forward, lo, root);
      var rest := IcSeries(factor, forward, lo + 1, hi, root);
      if first.Some? && rest.Some? then Some([first.value] + rest.value) else None
  }

  /** The series holds the rank correlation of every bar from `lo` on, in order. */
  lemma {:induction false} IcSeriesAt(factor: Matrix, forward: Matrix, lo: nat, hi: int, k: nat, root: real -> real)
    requires |factor| == |forward| && lo + k < hi
    requires forall a :: 0 <= a < |factor| ==> hi <= |factor[a]| && hi <= |forward[a]|
    requires IcSeries(factor, forward, lo, hi, root).Some?
    ensures AllValues(Column(factor, lo + k)) && AllValues(Column(forward, lo + k))
    ensures IcSeries(factor, forward, lo, hi, root).value[k] == Spearman(Numbers(Column(factor, lo + k)), Numbers(Column(forward, lo + k)), root)
    decreases k
  {
    if k > 0 {
      IcSeriesAt(factor, forward, lo + 1, hi, k - 1, root);
    }
  }

  /** A factor that orders the assets as their later returns do scores 1 on that bar, the opposite order scores -1. */
  lemma PerfectFactor(factor: Matrix, forward: Matrix, t: nat, x: nat, y: nat, root: real -> real)
    requires |factor| == |forward| && forall a :: 0 <= a < |factor| ==> t < |factor[a]| && t < |forward[a]|
    requires AllValues(Column(factor, t)) && AllValues(Column(forward, t))
    requires x < |factor| && y < |factor| && factor[x][t].v < factor[y][t].v
    requires forall z: real :: z >= 0.0 ==> RootAt(root, z)
    ensures (forall i, j :: 0 <= i < |factor| && 0 <= j < |factor| ==> (factor[i][t].v < factor[j][t].v <==> forward[i][t].v < forward[j][t].v))
      ==> CrossIc(factor, forward, t, root) == Some(1.0)
    ensures (forall i, j :: 0 <= i < |factor| && 0 <= j < |factor| ==> (factor[i][t].v < factor[j][t].v <==> forward[j][t].v < forward[i][t].v))
      ==> CrossIc(factor, forward, t, root) == Some(-1.0)
  {
    SpearmanOfOrders(Numbers(Column(factor, t)), Numbers(Column(forward, t)), x, y, root);
  }

  lemma {:induction false} IcSeriesSame(f: Matrix, g: Matrix, fwd: Matrix, gwd: Matrix, assets: nat, bars: nat, lo: nat, hi: int, root: real -> real)
    requires SameColumns(f, g, assets, bars, lo, hi) && SameColumns(fwd, gwd, assets, bars, lo, hi) && hi <= bars
    ensures IcSeries(f, fwd, lo, hi, root) == IcSeries(g, gwd, lo, hi, root)
    decreases hi - lo
  {
    if lo < hi {
      SameColumn(f, g, assets, bars, lo, hi, lo);
      SameColumn(fwd, gwd, assets, bars, lo, hi, lo);
      IcSeriesSame(f, g, fwd, gwd, assets, bars, lo + 1, hi, root);
    }
  }

  lemma {:induction false} IcSeriesDefined(f: Matrix, fwd: Matrix, assets: nat, bars: nat, lo: nat, hi: int, root: real -> real)
    requires IsTable(f, assets, bars) && IsTable(fwd, assets, bars) && hi <= bars
    requires forall a: nat, t: nat :: a < assets && lo <= t < hi && t < bars ==> f[a][t].Val? && fwd[a][t].Val?
    ensures IcSeries(f, fwd, lo, hi, root).Some?
    decreases hi - lo
  {
    if lo < hi {
      assert AllValues(Column(f, lo)) && AllValues(Column(fwd, lo));
      IcSeriesDefined(f, fwd, assets, bars, lo + 1, hi, root);
    }
  }

  // ---- The portfolio over the in-sample points.

  ghost predicate TablesFor(spec: Spec, factor: Matrix, forward: Matrix) {
    spec.Valid() && IsTable(factor, spec.assets, spec.totalBars) && IsTable(forward, spec.assets, spec.totalBars)
  }

  function TargetAt(spec: Spec, factor: Matrix, t: nat): (r: seq<real>)
    requires spec.Valid() && IsTable(factor, spec.assets, spec.totalBars) && t < spec.totalBars
    ensures |r| == spec.assets
  {
    LegFits(spec.assets, spec.quantile);
    Target(ColumnNumbers(factor, t), Leg(spec.assets, spec.quantile))
  }

  /** Cost and slippage of a traded volume, both in basis points. */
  function TradingCost(spec: Spec): real -> real {
    (traded: real) => (spec.costBps + spec.slippageBps) / 10000.0 * traded
  }

  /** Target weights and forward returns bar by bar. */
  function TargetTable(spec: Spec, factor: Matrix): (r: seq<seq<real>>)
    requires spec.Valid() && IsTable(factor, spec.assets, spec.totalBars)
    ensures |r| == spec.totalBars
    ensures forall t: nat :: t < spec.totalBars ==> r[t] == TargetAt(spec, factor, t)
  {
    seq(spec.totalBars, t requires 0 <= t < spec.totalBars => TargetAt(spec, factor, t))
  }

  function GainTable(spec: Spec, forward: Matrix): (r: seq<seq<real>>)
    requires spec.Valid() && IsTable(forward, spec.assets, spec.totalBars)
    ensures |r| == spec.totalBars
    ensures forall t: nat :: t < spec.totalBars ==> r[t] == ColumnNumbers(forward, t)
  {
    seq(spec.totalBars, t requires 0 <= t < spec.totalBars => ColumnNumbers(forward, t))
  }

  ghost predicate Widths(table: seq<seq<real>>, assets: nat) {
    forall t :: 0 <= t < |table| ==> |table[t]| == assets
  }

  /** Gross return of the new weights minus the cost of what was traded to reach them. */
  function NetReturn(target: seq<real>, gain: seq<real>, cost: real -> real, weights: seq<real>): real
    requires |target| == |gain| == |weights|
  {
    Dot(target, gain) - cost(Traded(target, weights))
  }

  /** Net return of each holding period, given the weights held before bar `t`. */
  function PeriodReturns(targets: seq<seq<real>>, gains: seq<seq<real>>, cost: real -> real, horizon: int, weights: seq<real>, t: nat, end: int): seq<real>
    requires |targets| == |gains| && end <= |targets| && horizon >= 1
    requires Widths(targets, |weights|) && Widths(gains, |weights|)
    decreases end - t
  {
    if t >= end then []
    else
      [NetReturn(targets[t], gains[t], cost, weights)]
      + PeriodReturns(targets, gains, cost, horizon, targets[t], t + horizon, end)
  }

  /** Normalised trading volume of each rebalance after the one at bar `t`. */
  function LaterTurnovers(targets: seq<seq<real>>, assets: nat, horizon: int, t: nat, end: int): seq<real>
    requires end <= |targets| && horizon >= 1 && Widths(targets, assets) && t < end
    decreases end - t
  {
    var next := t + horizon;
    if next >= end then []
    else [Traded(targets[next], targets[t]) / 4.0] + LaterTurnovers(targets, assets, horizon, next, end)
  }

  /** Bar of the `k`-th rebalance. */
  function RebalanceBar(t: nat, horizon: nat, k: nat): (bar: nat)
    ensures bar >= t
    decreases k
  {
    if k == 0 then t else RebalanceBar(t + horizon, horizon, k - 1)
  }

  lemma {:induction false} RebalanceBarIs(t: nat, horizon: nat, k: nat)
    ensures RebalanceBar(t, horizon, k) == t + k * horizon
    decreases k
  {
    if k > 0 {
      RebalanceBarIs(t + horizon, horizon, k - 1);
      assert (k - 1) * horizon == k * horizon - horizon;
    }
  }

  /** Net return number `k`: the return of the weights set on its bar, minus the cost of the change from the weights before. */
  lemma {:induction false} PeriodReturnAt(targets: seq<seq<real>>, gains: seq<seq<real>>, cost: real -> real, horizon: int, weights: seq<real>, t: nat, end: int, k: nat)
    requires |targets| == |gains| && end <= |targets| && horizon >= 1
    requires Widths(targets, |weights|) && Widths(gains, |weights|)
    requires k < |PeriodReturns(targets, gains, cost, horizon, weights, t, end)|
    ensures RebalanceBar(t, horizon, k) < end && (k > 0 ==> RebalanceBar(t, horizon, k - 1) < end)
    ensures PeriodReturns(targets, gains, cost, horizon, weights, t, end)[k]
         == NetReturn(targets[RebalanceBar(t, horizon, k)], gains[RebalanceBar(t, horizon, k)], cost,
                      if k == 0 then weights else targets[RebalanceBar(t, horizon, k - 1)])
    decreases k
  {
    PeriodReturnsUnfold(targets, gains, cost, horizon, weights, t, end);
    if k > 0 {
      PeriodReturnAt(targets, gains, cost, horizon, targets[t], t + horizon, end, k - 1);
    }
  }

  lemma NetReturnMeans(spec: Spec, target: seq<real>, gain: seq<real>, weights: seq<real>)
    requires |target| == |gain| == |weights|
    ensures 10000.0 * (Sum(Products(target, gain)) - NetReturn(target, gain, TradingCost(spec), weights))
         == (spec.costBps + spec.slippageBps) * Traded(target, weights)
  {
    DotIsSum(target, gain);
  }

  /** As many periods as rebalances: one every `horizon` bars from the first bar until the end. */
  lemma {:induction false} PeriodCount(targets: seq<seq<real>>, gains: seq<seq<real>>, cost: real -> real, horizon: int, weights: seq<real>, t: nat, end: int)
    requires |targets| == |gains| && end <= |targets| && horizon >= 1
    requires Widths(targets, |weights|) && Widths(gains, |weights|)
    ensures var n := Rebalances(t, end, horizon);
      && |PeriodReturns(targets, gains, cost, horizon, weights, t, end)| == n
      && (t < end ==> n >= 1 && RebalanceBar(t, horizon, n - 1) < end <= RebalanceBar(t, horizon, n))
      && (t >= end ==> n == 0)
    decreases end - t
  {
    if t < end {
      PeriodCount(targets, gains, cost, horizon, targets[t], t + horizon, end);
    }
  }

  /** Turnover number `k`: a quarter of what the change from one rebalance to the next trades. */
  lemma {:induction false} TurnoverOfChange(targets: seq<seq<real>>, assets: nat, horizon: int, t: nat, end: int, k: nat)
    requires end <= |targets| && horizon >= 1 && Widths(targets, assets) && t < end
    requires k < |LaterTurnovers(targets, assets, horizon, t, end)|
    ensures RebalanceBar(t, horizon, k + 1) < end && RebalanceBar(t, horizon, k) < end
    ensures 4.0 * LaterTurnovers(targets, assets, horizon, t, end)[k]
         == Traded(targets[RebalanceBar(t, horizon, k + 1)], targets[RebalanceBar(t, horizon, k)])
    decreases k
  {
    LaterTurnoversUnfold(targets, assets, horizon, t, end);
    if k > 0 {
      TurnoverOfChange(targets, assets, horizon, t + horizon, end, k - 1);
    } else {
      assert RebalanceBar(t, horizon, 1) == RebalanceBar(t + horizon, horizon, 0);
    }
  }

  lemma {:induction false} TurnoverCount(targets: seq<seq<real>>, assets: nat, horizon: int, t: nat, end: int)
    requires end <= |targets| && horizon >= 1 && Widths(targets, assets) && t < end
    ensures |LaterTurnovers(targets, assets, horizon, t, end)| == Rebalances(t, end, horizon) - 1
    decreases end - t
  {
    if t + horizon < end {
      TurnoverCount(targets, assets, horizon, t + horizon, end);
    }
  }

  function Rebalances(start: int, end: int, horizon: int): nat
    requires horizon >= 1
    decreases end - start
  {
    if start >= end then 0 else 1 + Rebalances(start + horizon, end, horizon)
  }

  datatype Portfolio = Portfolio(sharpe: real, turnover: real, rebalances: nat)

  function Summarise(horizon: int, nets: seq<real>, turnovers: seq<real>, rebalances: nat, root: real -> real): Portfolio
    requires horizon >= 1
  {
    Portfolio(RatioOf(Mean(nets), Std(nets, root)) * root(TRADING_DAYS as real / horizon as real), Mean(turnovers), rebalances)
  }

  function LongShortOf(targets: seq<seq<real>>, gains: seq<seq<real>>, assets: nat, cost: real -> real, horizon: int, start: nat, end: int, root: real -> real): Portfolio
    requires |targets| == |gains| && end <= |targets| && horizon >= 1
    requires Widths(targets, assets) && Widths(gains, assets)
  {
    Summarise(horizon,
      PeriodReturns(targets, gains, cost, horizon, Zeros(assets), start, end),
      if start < end then LaterTurnovers(targets, assets, horizon, start, end) else [],
      Rebalances(start, end, horizon), root)
  }

  function LongShort(spec: Spec, factor: Matrix, forward: Matrix, start: nat, end: int, root: real -> real): Portfolio
    requires TablesFor(spec, factor, forward) && end <= spec.totalBars
  {
    LongShortOf(TargetTable(spec, factor), GainTable(spec, forward), spec.assets, TradingCost(spec), spec.horizon, start, end, root)
  }

  lemma PeriodReturnsUnfold(targets: seq<seq<real>>, gains: seq<seq<real>>, cost: real -> real, horizon: int, weights: seq<real>, t: nat, end: int)
    requires |targets| == |gains| && end <= |targets| && horizon >= 1 && t < end
    requires Widths(targets, |weights|) && Widths(gains, |weights|)
    ensures PeriodReturns(targets, gains, cost, horizon, weights, t, end)
         == [NetReturn(targets[t], gains[t], cost, weights)]
            + PeriodReturns(targets, gains, cost, horizon, targets[t], t + horizon, end)
  {
  }

  /** `_long_short` as the loop it is. */
  method RunLongShort(spec: Spec, factor: Matrix, forward: Matrix, start: nat, end: int, root: real -> real) returns (r: Portfolio)
    requires TablesFor(spec, factor, forward) && end <= spec.totalBars
    ensures r == LongShort(spec, factor, forward, start, end, root)
  {
    LegFits(spec.assets, spec.quantile);
    var leg := Leg(spec.assets, spec.quantile);
    ghost var targets, gains := TargetTable(spec, factor), GainTable(spec, forward);
    assert RowsFor(spec.assets, spec.totalBars, factor, forward, leg, targets, gains);
    var nets, turnovers, rebalances := Rebalance(spec.assets, spec.totalBars, spec.horizon, factor, forward, leg, TradingCost(spec), targets, gains, start, end);
    r := Summarise(spec.horizon, nets, turnovers, rebalances, root);
  }

  ghost predicate RowAt(factor: Matrix, forward: Matrix, leg: nat, targets: seq<seq<real>>, gains: seq<seq<real>>, t: nat)
    requires |factor| == |forward| && (forall a :: 0 <= a < |factor| ==> t < |factor[a]| && t < |forward[a]|)
    requires 0 < leg && 2 * leg <= |factor| && t < |targets| && t < |gains|
  {
    targets[t] == Target(ColumnNumbers(factor, t), leg) && gains[t] == ColumnNumbers(forward, t)
  }

  /** The tables hold the target and the gains of every bar. */
  ghost predicate RowsFor(assets: nat, bars: nat, factor: Matrix, forward: Matrix, leg: nat, targets: seq<seq<real>>, gains: seq<seq<real>>) {
    && IsTable(factor, assets, bars) && IsTable(forward, assets, bars) && 0 < leg && 2 * leg <= assets
    && |targets| == |gains| == bars && Widths(targets, assets) && Widths(gains, assets)
    && forall t: nat {:trigger RowAt(factor, forward, leg, targets, gains, t)} :: t < bars ==> RowAt(factor, forward, leg, targets, gains, t)
  }

  /** One rebalance: the new weights, what was traded, and the return net of its cost. */
  method RebalanceOnce(assets: nat, bars: nat, factor: Matrix, forward: Matrix, leg: nat, cost: real -> real, ghost targets: seq<seq<real>>, ghost gains: seq<seq<real>>, weights: seq<real>, t: nat)
    returns (target: seq<real>, traded: real, net: real)
    requires RowsFor(assets, bars, factor, forward, leg, targets, gains)
    requires |weights| == assets && t < bars
    ensures target == targets[t] && |target| == assets && traded == Traded(target, weights)
    ensures net == NetReturn(targets[t], gains[t], cost, weights)
  {
    assert RowAt(factor, forward, leg, targets, gains, t);
    target := AssignTarget(ColumnNumbers(factor, t), leg);
    traded := Traded(target, weights);
    var gross := Dot(target, ColumnNumbers(forward, t));
    net := gross - cost(traded);
  }

  /** The results the rebalance loop has to collect. */
  ghost predicate Expected(targets: seq<seq<real>>, gains: seq<seq<real>>, cost: real -> real, horizon: int, assets: nat, start: nat, end: int,
                           nets: seq<real>, turnovers: seq<real>) {
    && |targets| == |gains| && end <= |targets| && horizon >= 1 && Widths(targets, assets) && Widths(gains, assets)
    && nets == PeriodReturns(targets, gains, cost, horizon, Zeros(assets), start, end)
    && turnovers == if start < end then LaterTurnovers(targets, assets, horizon, start, end) else []
  }

  /** The loop has done `k` rebalances and stands at bar `t`. */
  ghost predicate Reached(targets: seq<seq<real>>, assets: nat, horizon: int, start: nat, end: int, k: nat, weights: seq<real>, t: nat) {
    && horizon >= 1 && end <= |targets| && t == RebalanceBar(start, horizon, k)
    && if k == 0 then weights == Zeros(assets)
       else RebalanceBar(start, horizon, k - 1) < end && weights == targets[RebalanceBar(start, horizon, k - 1)]
  }

  lemma {:induction false} NextBar(start: nat, horizon: nat, k: nat)
    ensures RebalanceBar(start, horizon, k + 1) == RebalanceBar(start, horizon, k) + horizon
    decreases k
  {
    if k > 0 {
      NextBar(start + horizon, horizon, k - 1);
    }
  }

  lemma {:induction false} BarsRise(start: nat, horizon: nat, k: nat, n: nat)
    requires k <= n
    ensures RebalanceBar(start, horizon, k) <= RebalanceBar(start, horizon, n)
    decreases n
  {
    if k < n {
      BarsRise(start, horizon, k, n - 1);
      NextBar(start, horizon, n - 1);
    }
  }

  /** What the rebalance at bar `t` has to add. */
  lemma TurnExpects(targets: seq<seq<real>>, gains: seq<seq<real>>, cost: real -> real, horizon: int, assets: nat, start: nat, end: int,
                    nets: seq<real>, turnovers: seq<real>, k: nat, weights: seq<real>, t: nat)
    requires Expected(targets, gains, cost, horizon, assets, start, end, nets, turnovers)
    requires Reached(targets, assets, horizon, start, end, k, weights, t) && t < end
    ensures |weights| == assets && k < |nets| && nets[k] == NetReturn(targets[t], gains[t], cost, weights)
    ensures k > 0 ==> k - 1 < |turnovers| && turnovers[k - 1] == Traded(targets[t], weights) / 4.0
    ensures Reached(targets, assets, horizon, start, end, k + 1, targets[t], t + horizon)
  {
    BarsRise(start, horizon, 0, k);
    PeriodCount(targets, gains, cost, horizon, Zeros(assets), start, end);
    if k >= |nets| {
      BarsRise(start, horizon, |nets|, k);
    }
    PeriodReturnAt(targets, gains, cost, horizon, Zeros(assets), start, end, k);
    TurnoverCount(targets, assets, horizon, start, end);
    if k > 0 {
      TurnoverOfChange(targets, assets, horizon, start, end, k - 1);
    }
    NextBar(start, horizon, k);
  }

  /** Past the end everything is collected. */
  lemma AllCollected(targets: seq<seq<real>>, gains: seq<seq<real>>, cost: real -> real, horizon: int, assets: nat, start: nat, end: int,
                     nets: seq<real>, turnovers: seq<real>, k: nat, weights: seq<real>, t: nat)
    requires Expected(targets, gains, cost, horizon, assets, start, end, nets, turnovers)
    requires Reached(targets, assets, horizon, start, end, k, weights, t) && t >= end && k <= |nets|
    ensures k == |nets| == Rebalances(start, end, horizon) && |turnovers| == if k == 0 then 0 else k - 1
  {
    PeriodCount(targets, gains, cost, horizon, Zeros(assets), start, end);
    if start < end {
      TurnoverCount(targets, assets, horizon, start, end);
      if k < |nets| {
        BarsRise(start, horizon, k, |nets| - 1);
      }
    }
  }

  /** One turn of the loop, against the results expected of it. */
  method RebalanceNext(assets: nat, bars: nat, horizon: int, factor: Matrix, forward: Matrix, leg: nat, cost: real -> real, ghost targets: seq<seq<real>>, ghost gains: seq<seq<real>>, ghost start: nat, end: int,
                       ghost nets: seq<real>, ghost turnovers: seq<real>, k: nat, weights: seq<real>, t: nat)
    returns (target: seq<real>, turnover: real, net: real)
    requires RowsFor(assets, bars, factor, forward, leg, targets, gains) && t < end <= bars
    requires Expected(targets, gains, cost, horizon, assets, start, end, nets, turnovers)
    requires Reached(targets, assets, horizon, start, end, k, weights, t)
    ensures k < |nets| && net == nets[k] && (k > 0 ==> k - 1 < |turnovers| && turnover == turnovers[k - 1])
    ensures Reached(targets, assets, horizon, start, end, k + 1, target, t + horizon)
  {
    TurnExpects(targets, gains, cost, horizon, assets, start, end, nets, turnovers, k, weights, t);
    var traded;
    target, traded, net := RebalanceOnce(assets, bars, factor, forward, leg, cost, targets, gains, weights, t);
    turnover := traded / 4.0;
  }

  /** The first `k` of the results. */
  ghost predicate Collected(all: seq<real>, k: nat, s: seq<real>) {
    k <= |all| && s == all[..k]
  }

  lemma CollectMore(all: seq<real>, k: nat, s: seq<real>)
    requires Collected(all, k, s) && k < |all|
    ensures Collected(all, k + 1, s + [all[k]])
  {
  }

  method Rebalance(assets: nat, bars: nat, horizon: int, factor: Matrix, forward: Matrix, leg: nat, cost: real -> real, ghost targets: seq<seq<real>>, ghost gains: seq<seq<real>>, start: nat, end: int)
    returns (nets: seq<real>, turnovers: seq<real>, rebalances: nat)
    requires RowsFor(assets, bars, factor, forward, leg, targets, gains) && end <= bars && horizon >= 1
    ensures Expected(targets, gains, cost, horizon, assets, start, end, nets, turnovers)
    ensures rebalances == Rebalances(start, end, horizon)
  {
    ghost var allNets := PeriodReturns(targets, gains, cost, horizon, Zeros(assets), start, end);
    ghost var allTurnovers := if start < end then LaterTurnovers(targets, assets, horizon, start, end) else [];
    var weights := Zeros(assets);
    nets, turnovers, rebalances := [], [], 0;
    var t: nat := start;
    while t < end
      invariant Reached(targets, assets, horizon, start, end, rebalances, weights, t)
      invariant Collected(allNets, rebalances, nets) && Collected(allTurnovers, if rebalances == 0 then 0 else rebalances - 1, turnovers)
      decreases end - t
    {
      var target, turnover, net :=
        RebalanceNext(assets, bars, horizon, factor, forward, leg, cost, targets, gains, start, end, allNets, allTurnovers, rebalances, weights, t);
      if rebalances > 0 {
        CollectMore(allTurnovers, rebalances - 1, turnovers);
        turnovers := turnovers + [turnover];
      }
      CollectMore(allNets, rebalances, nets);
      nets := nets + [net];
      weights := target;
      rebalances := rebalances + 1;
      t := t + horizon;
    }
    AllCollected(targets, gains, cost, horizon, assets, start, end, allNets, allTurnovers, rebalances, weights, t);
  }

  ghost predicate SameRows(m: seq<seq<real>>, n: seq<seq<real>>, lo: int, hi: int) {
    |m| == |n| && forall t :: 0 <= t < |m| && lo <= t < hi ==> m[t] == n[t]
  }

  lemma {:induction false} ReturnsSame(m: seq<seq<real>>, n: seq<seq<real>>, gains: seq<seq<real>>, hains: seq<seq<real>>, cost: real -> real, horizon: int, weights: seq<real>, lo: nat, t: nat, end: int)
    requires |m| == |gains| && |n| == |hains| && end <= |m| && end <= |n| && horizon >= 1 && lo <= t
    requires Widths(m, |weights|) && Widths(gains, |weights|) && Widths(n, |weights|) && Widths(hains, |weights|)
    requires SameRows(m, n, lo, end) && SameRows(gains, hains, lo, end)
    ensures PeriodReturns(m, gains, cost, horizon, weights, t, end) == PeriodReturns(n, hains, cost, horizon, weights, t, end)
    decreases end - t
  {
    if t < end {
      assert m[t] == n[t] && gains[t] == hains[t];
      ReturnsSame(m, n, gains, hains, cost, horizon, m[t], lo, t + horizon, end);
      PeriodReturnsUnfold(m, gains, cost, horizon, weights, t, end);
      PeriodReturnsUnfold(n, hains, cost, horizon, weights, t, end);
    }
  }

  lemma LaterTurnoversUnfold(targets: seq<seq<real>>, assets: nat, horizon: int, t: nat, end: int)
    requires end <= |targets| && horizon >= 1 && Widths(targets, assets) && t + horizon < end
    ensures LaterTurnovers(targets, assets, horizon, t, end)
         == [Traded(targets[t + horizon], targets[t]) / 4.0] + LaterTurnovers(targets, assets, horizon, t + horizon, end)
  {
  }

  lemma {:induction false} TurnoversSame(m: seq<seq<real>>, n: seq<seq<real>>, assets: nat, horizon: int, lo: nat, t: nat, end: int)
    requires end <= |m| && horizon >= 1 && lo <= t < end
    requires Widths(m, assets) && Widths(n, assets) && SameRows(m, n, lo, end)
    ensures LaterTurnovers(m, assets, horizon, t, end) == LaterTurnovers(n, assets, horizon, t, end)
    decreases end - t
  {
    var next := t + horizon;
    if next < end {
      assert m[t] == n[t] && m[next] == n[next];
      TurnoversSame(m, n, assets, horizon, lo, next, end);
      LaterTurnoversUnfold(m, assets, horizon, t, end);
      LaterTurnoversUnfold(n, assets, horizon, t, end);
    }
  }

  lemma LongShortSame(spec: Spec, f: Matrix, g: Matrix, fwd: Matrix, gwd: Matrix, lo: nat, end: int, root: real -> real)
    requires TablesFor(spec, f, fwd) && TablesFor(spec, g, gwd) && end <= spec.totalBars
    requires SameColumns(f, g, spec.assets, spec.totalBars, lo, end) && SameColumns(fwd, gwd, spec.assets, spec.totalBars, lo, end)
    ensures LongShort(spec, f, fwd, lo, end, root) == LongShort(spec, g, gwd, lo, end, root)
  {
    var m, n, gains, hains := TargetTable(spec, f), TargetTable(spec, g), GainTable(spec, fwd), GainTable(spec, gwd);
    forall t: nat | t < spec.totalBars && lo <= t < end ensures m[t] == n[t] && gains[t] == hains[t] {
      SameColumn(f, g, spec.assets, spec.totalBars, lo, end, t);
      SameColumn(fwd, gwd, spec.assets, spec.totalBars, lo, end, t);
      SameTarget(spec, f, g, t);
    }
    ReturnsSame(m, n, gains, hains, TradingCost(spec), spec.horizon, Zeros(spec.assets), lo, lo, end);
    if lo < end {
      TurnoversSame(m, n, spec.assets, spec.horizon, lo, lo, end);
    }
  }

  lemma SameTarget(spec: Spec, f: Matrix, g: Matrix, t: nat)
    requires spec.Valid() && IsTable(f, spec.assets, spec.totalBars) && IsTable(g, spec.assets, spec.totalBars) && t < spec.totalBars
    requires ColumnNumbers(f, t) == ColumnNumbers(g, t)
    ensures TargetAt(spec, f, t) == TargetAt(spec, g, t)
  {
  }

  lemma TurnoverAt(spec: Spec, f: Matrix, t: nat, next: nat)
    requires spec.Valid() && IsTable(f, spec.assets, spec.totalBars) && t < spec.totalBars && next < spec.totalBars
    ensures 0.0 <= Traded(TargetAt(spec, f, next), TargetAt(spec, f, t)) / 4.0 <= 1.0
  {
    LegFits(spec.assets, spec.quantile);
    TurnoverNormalised(ColumnNumbers(f, next), ColumnNumbers(f, t), Leg(spec.assets, spec.quantile));
  }

  lemma {:induction false} TurnoversNormalised(targets: seq<seq<real>>, assets: nat, horizon: int, t: nat, end: int)
    requires end <= |targets| && horizon >= 1 && Widths(targets, assets) && t < end
    requires forall i, j :: 0 <= i < |targets| && 0 <= j < |targets| ==> 0.0 <= Traded(targets[i], targets[j]) / 4.0 <= 1.0
    ensures forall k :: 0 <= k < |LaterTurnovers(targets, assets, horizon, t, end)| ==>
      0.0 <= LaterTurnovers(targets, assets, horizon, t, end)[k] <= 1.0
    decreases end - t
  {
    if t + horizon < end {
      TurnoversNormalised(targets, assets, horizon, t + horizon, end);
    }
  }

  lemma {:induction false} SumWithin(s: seq<real>)
    requires forall k :: 0 <= k < |s| ==> 0.0 <= s[k] <= 1.0
    ensures 0.0 <= Sum(s) <= |s| as real
  {
    if s != [] { SumWithin(s[1..]); }
  }

  lemma MeanWithin(s: seq<real>)
    requires forall k :: 0 <= k < |s| ==> 0.0 <= s[k] <= 1.0
    ensures 0.0 <= Mean(s) <= 1.0
  {
    SumWithin(s);
    if s != [] { DivBounds(Sum(s), |s| as real); }
  }

  /** The reported turnover is a fraction: a full flip of both legs counts as 1. */
  lemma ReportedTurnoverIsFraction(spec: Spec, factor: Matrix, forward: Matrix, start: nat, end: int, root: real -> real)
    requires TablesFor(spec, factor, forward) && end <= spec.totalBars
    ensures 0.0 <= LongShort(spec, factor, forward, start, end, root).turnover <= 1.0
  {
    var targets := TargetTable(spec, factor);
    forall i, j | 0 <= i < |targets| && 0 <= j < |targets| ensures 0.0 <= Traded(targets[i], targets[j]) / 4.0 <= 1.0 {
      TurnoverAt(spec, factor, j, i);
    }
    if start < end {
      TurnoversNormalised(targets, spec.assets, spec.horizon, start, end);
      MeanWithin(LaterTurnovers(targets, spec.assets, spec.horizon, start, end));
    }
  }

  // ---- Stability buckets.

  /** Buckets of `size`; a tail shorter than half a bucket joins the one before it. */
  function Buckets(ic: seq<real>, size: nat): seq<seq<real>>
    requires size > 0
  {
    if ic == [] then []
    else if |ic| <= size || 2 * (|ic| - size) < size then [ic]
    else [ic[..size]] + Buckets(ic[size..], size)
  }

  function Joined(buckets: seq<seq<real>>): seq<real> {
    if buckets == [] then [] else buckets[0] + Joined(buckets[1..])
  }

  /** No point is lost or moved, and only the last bucket may differ from the nominal size. */
  lemma {:induction false} BucketsPartition(ic: seq<real>, size: nat)
    requires size > 0
    ensures var b := Buckets(ic, size);
      && Joined(b) == ic
      && (b == [] <==> ic == [])
      && (forall k :: 0 <= k < |b| - 1 ==> |b[k]| == size)
      && (|b| > 1 ==> size <= 2 * |b[|b| - 1]| < 3 * size)
      && (|b| == 1 ==> 0 < |b[0]| && 2 * |b[0]| < 3 * size)
  {
    if ic == [] {
    } else if |ic| <= size || 2 * (|ic| - size) < size {
      assert [ic][1..] == [];
      assert Joined([ic]) == ic + Joined([]);
    } else {
      BucketsPartition(ic[size..], size);
      var b := Buckets(ic, size);
      assert b[1..] == Buckets(ic[size..], size);
      assert ic == ic[..size] + ic[size..];
    }
  }

  lemma BucketsStep(ic: seq<real>, size: nat)
    requires size > 0 && |ic| > size && 2 * (|ic| - size) >= size
    ensures Buckets(ic, size) == [ic[..size]] + Buckets(ic[size..], size)
  {
  }

  /** The bucket loop: append full chunks, merge a short tail into the bucket before it. */
  /** The loop of `CollectBuckets` at position `i`. */
  ghost predicate BucketsSoFar(ic: seq<real>, size: nat, i: nat, buckets: seq<seq<real>>)
    requires size > 0
  {
    && (i == 0 ==> buckets == [])
    && (i == 0 || i >= size)
    && (0 < i < |ic| ==>
          && buckets != [] && buckets[|buckets| - 1] == ic[i - size..i]
          && buckets[..|buckets| - 1] + Buckets(ic[i - size..], size) == Buckets(ic, size))
    && (i >= |ic| ==> buckets == Buckets(ic, size))
  }

  /** What is left is too short and joins the last bucket. */
  lemma TailJoins(ic: seq<real>, size: nat, i: nat, buckets: seq<seq<real>>)
    requires size > 0 && 0 < i < |ic| && BucketsSoFar(ic, size, i, buckets) && 2 * (|ic| - i) < size
    ensures buckets[..|buckets| - 1] + [buckets[|buckets| - 1] + ic[i..]] == Buckets(ic, size)
  {
    var tail := ic[i - size..];
    assert ic[i - size..i] + ic[i..] == tail;
    assert Buckets(tail, size) == [tail];
  }

  /** The buckets before `i`, with the rest still to be divided. */
  lemma RestRemains(ic: seq<real>, size: nat, i: nat, buckets: seq<seq<real>>)
    requires size > 0 && i < |ic| && BucketsSoFar(ic, size, i, buckets) && (i > 0 ==> 2 * (|ic| - i) >= size)
    ensures buckets + Buckets(ic[i..], size) == Buckets(ic, size)
  {
    if i == 0 {
      assert ic[0..] == ic;
    } else {
      var tail := ic[i - size..];
      assert tail[..size] == ic[i - size..i] && tail[size..] == ic[i..];
      BucketsStep(tail, size);
      assert buckets == buckets[..|buckets| - 1] + [ic[i - size..i]];
    }
  }

  /** A full bucket, or the rest. */
  lemma BucketGrows(ic: seq<real>, size: nat, i: nat, buckets: seq<seq<real>>)
    requires size > 0 && i < |ic| && BucketsSoFar(ic, size, i, buckets) && (i > 0 ==> 2 * (|ic| - i) >= size)
    ensures var stop := if i + size <= |ic| then i + size else |ic|; BucketsSoFar(ic, size, i + size, buckets + [ic[i..stop]])
  {
    RestRemains(ic, size, i, buckets);
    if i + size >= |ic| {
      assert ic[i..|ic|] == ic[i..];
    } else {
      assert (buckets + [ic[i..i + size]])[..|buckets|] == buckets;
    }
  }

  method CollectBuckets(ic: seq<real>, size: nat) returns (buckets: seq<seq<real>>)
    requires size > 0
    ensures buckets == Buckets(ic, size)
  {
    buckets := [];
    var i := 0;
    while i < |ic|
      invariant BucketsSoFar(ic, size, i, buckets)
      decreases |ic| - i
    {
      var stop := if i + size <= |ic| then i + size else |ic|;
      var chunk := ic[i..stop];
      if buckets != [] && 2 * |chunk| < size {
        var last := |buckets| - 1;
        TailJoins(ic, size, i, buckets);
        assert chunk == ic[i..];
        buckets := buckets[..last] + [buckets[last] + chunk];
      } else {
        BucketGrows(ic, size, i, buckets);
        buckets := buckets + [chunk];
      }
      i := i + size;
    }
  }

  function CountPositive(buckets: seq<seq<real>>): nat {
    if buckets == [] then 0
    else CountPositive(buckets[..|buckets| - 1]) + if Mean(buckets[|buckets| - 1]) > 0.0 then 1 else 0
  }

  function PositiveBucketRatio(ic: seq<real>, size: nat): real
    requires size > 0
  {
    var buckets := Buckets(ic, size);
    if buckets == [] then 0.0 else CountPositive(buckets) as real / |buckets| as real
  }

  lemma {:induction false} CountPositiveBound(buckets: seq<seq<real>>)
    ensures CountPositive(buckets) <= |buckets|
  {
    if buckets != [] { CountPositiveBound(buckets[..|buckets| - 1]); }
  }

  lemma PositiveRatioIsFraction(ic: seq<real>, size: nat)
    requires size > 0
    ensures 0.0 <= PositiveBucketRatio(ic, size) <= 1.0
  {
    var buckets := Buckets(ic, size);
    CountPositiveBound(buckets);
    if buckets != [] { DivBounds(CountPositive(buckets) as real, |buckets| as real); }
  }

  // ---- The whole evaluation.

  /** `abs(pearson)` against every library entry, the largest of them. */
  function MaxCorrelation(ic: seq<real>, others: seq<seq<real>>, root: real -> real): real
    requires forall k :: 0 <= k < |others| ==> |others[k]| == |ic|
  {
    if others == [] then 0.0
    else
      var earlier := MaxCorrelation(ic, others[..|others| - 1], root);
      var c := Magnitude(Pearson(ic, others[|others| - 1], root));
      if c > earlier then c else earlier
  }

  function LastBars(ic: seq<real>, n: int): seq<real>
    requires 0 <= n <= |ic|
  {
    ic[|ic| - n..]
  }

  /** Every in-sample figure, from the in-sample coefficients, the library's, and the portfolio. */
  function InSampleFigures(spec: Spec, ic: seq<real>, others: seq<seq<real>>, portfolio: Portfolio, root: real -> real): InSample
    requires spec.Valid() && |ic| == spec.InSampleEnd() - spec.maxWindow
    requires forall k :: 0 <= k < |others| ==> |others[k]| == |ic|
  {
    InSample(Mean(ic), Std(ic, root), RatioOf(Mean(ic), Std(ic, root)), PositiveBucketRatio(ic, spec.bucketBars),
             portfolio.sharpe, portfolio.turnover, Mean(LastBars(ic, spec.recentBars)), MaxCorrelation(ic, others, root),
             portfolio.rebalances)
  }

  function DefinitionProblem(e: Expr, fields: set<string>, maxWindow: int): Option<BacktestError> {
    var problem := CheckDefinition(e, fields);
    if problem.Some? then problem else if Lookback(e) > maxWindow then Some(LookbackTooLong) else None
  }

  function LibraryProblem(library: seq<Expr>, fields: set<string>, maxWindow: int): (r: Option<BacktestError>)
    ensures r.None? <==> forall k :: 0 <= k < |library| ==> DefinitionProblem(library[k], fields, maxWindow).None?
    ensures r.Some? ==> r.value != WarmupRegion
  {
    if library == [] then None
    else
      var first := DefinitionProblem(library[0], fields, maxWindow);
      assert first.Some? ==> first.value != WarmupRegion by { ProblemIsNotWarmup(library[0], fields); }
      if first.Some? then first else LibraryProblem(library[1..], fields, maxWindow)
  }

  lemma {:induction false} ProblemIsNotWarmup(e: Expr, fields: set<string>)
    ensures CheckDefinition(e, fields) != Some(WarmupRegion)
  {
    if e.Apply? { ProblemIsNotWarmup(e.input, fields); }
  }

  /** The in-sample coefficients of each library entry; `None` when one of them raises. */
  function LibraryIc(spec: Spec, p: Panel, library: seq<Expr>, root: real -> real): (r: Option<seq<seq<real>>>)
    requires Runnable(spec, p)
    requires forall k :: 0 <= k < |library| ==> CheckDefinition(library[k], p.rows.Keys).None?
    ensures r.Some? ==> |r.value| == |library| && forall k :: 0 <= k < |r.value| ==> |r.value[k]| == spec.InSampleEnd() - spec.maxWindow
  {
    if library == [] then Some([])
    else
      var earlier := LibraryIc(spec, p, library[..|library| - 1], root);
      var ic := InSampleIc(spec, p, library[|library| - 1], root);
      if earlier.Some? && ic.Some? then Some(earlier.value + [ic.value]) else None
  }

  ghost predicate Runnable(spec: Spec, p: Panel) {
    spec.Valid() && ValidPanel(p) && p.assets == spec.assets && p.bars == spec.totalBars
  }

  function InSampleIc(spec: Spec, p: Panel, e: Expr, root: real -> real): (r: Option<seq<real>>)
    requires Runnable(spec, p) && CheckDefinition(e, p.rows.Keys).None?
    ensures r.Some? ==> |r.value| == spec.InSampleEnd() - spec.maxWindow
  {
    IcSeries(FactorMatrix(p, e), ForwardReturns(p, spec.horizon), spec.maxWindow, spec.InSampleEnd(), root)
  }

  function OosIc(spec: Spec, p: Panel, e: Expr, root: real -> real): Option<seq<real>>
    requires Runnable(spec, p) && CheckDefinition(e, p.rows.Keys).None?
  {
    IcSeries(FactorMatrix(p, e), ForwardReturns(p, spec.horizon), spec.inSampleBars, spec.OosEnd(), root)
  }

  function InSamplePortfolio(spec: Spec, p: Panel, e: Expr, root: real -> real): Portfolio
    requires Runnable(spec, p) && CheckDefinition(e, p.rows.Keys).None?
  {
    LongShort(spec, FactorMatrix(p, e), ForwardReturns(p, spec.horizon), spec.maxWindow, spec.InSampleEnd(), root)
  }

  /** `FactorBacktester.evaluate`, figures only. */
  function Evaluation(spec: Spec, p: Panel, e: Expr, library: seq<Expr>, root: real -> real): Result<Report, BacktestError>
    requires spec.Valid() && ValidPanel(p)
  {
    if p.bars != spec.totalBars || p.assets != spec.assets then Err(PanelMismatch)
    else
      var problem := DefinitionProblem(e, p.rows.Keys, spec.maxWindow);
      if problem.Some? then Err(problem.value)
      else
        var libraryProblem := LibraryProblem(library, p.rows.Keys, spec.maxWindow);
        if libraryProblem.Some? then Err(libraryProblem.value)
        else
          var ic, oos := InSampleIc(spec, p, e, root), OosIc(spec, p, e, root);
          var others := LibraryIc(spec, p, library, root);
          if ic.None? || oos.None? || others.None? then Err(WarmupRegion)
          else Ok(Report(InSampleFigures(spec, ic.value, others.value, InSamplePortfolio(spec, p, e, root), root),
                         Mean(oos.value), Std(oos.value, root)))
  }

  /** Every evaluation point past the warm-up has a factor value and a forward return. */
  lemma PointsDefined(spec: Spec, p: Panel, e: Expr, lo: nat, hi: int, root: real -> real)
    requires Runnable(spec, p) && DefinitionProblem(e, p.rows.Keys, spec.maxWindow).None?
    requires spec.maxWindow <= lo && hi <= spec.OosEnd()
    ensures IcSeries(FactorMatrix(p, e), ForwardReturns(p, spec.horizon), lo, hi, root).Some?
  {
    var f: Matrix, fwd: Matrix := FactorMatrix(p, e), ForwardReturns(p, spec.horizon);
    forall a: nat, t: nat | a < p.assets && lo <= t < hi && t < p.bars
      ensures f[a][t].Val? && fwd[a][t].Val?
    {
      DefinedAfterLookback(p, e, a, t);
      assert fwd[a][t] == ForwardReturn(p, spec.horizon, a, t);
    }
    IcSeriesDefined(f, fwd, p.assets, p.bars, lo, hi, root);
  }

  lemma {:induction false} LibraryDefined(spec: Spec, p: Panel, library: seq<Expr>, root: real -> real)
    requires Runnable(spec, p)
    requires forall k :: 0 <= k < |library| ==> CheckDefinition(library[k], p.rows.Keys).None? && Lookback(library[k]) <= spec.maxWindow
    ensures LibraryIc(spec, p, library, root).Some?
  {
    if library != [] {
      LibraryDefined(spec, p, library[..|library| - 1], root);
      PointsDefined(spec, p, library[|library| - 1], spec.maxWindow, spec.InSampleEnd(), root);
    }
  }

  lemma IcDefined(spec: Spec, p: Panel, e: Expr, root: real -> real)
    requires Runnable(spec, p) && DefinitionProblem(e, p.rows.Keys, spec.maxWindow).None?
    ensures InSampleIc(spec, p, e, root).Some? && OosIc(spec, p, e, root).Some?
  {
    PointsDefined(spec, p, e, spec.maxWindow, spec.InSampleEnd(), root);
    PointsDefined(spec, p, e, spec.inSampleBars, spec.OosEnd(), root);
  }

  lemma AcceptedLibraryDefined(spec: Spec, p: Panel, library: seq<Expr>, root: real -> real)
    requires Runnable(spec, p) && LibraryProblem(library, p.rows.Keys, spec.maxWindow).None?
    ensures LibraryIc(spec, p, library, root).Some?
  {
    assert forall k :: 0 <= k < |library| ==> DefinitionProblem(library[k], p.rows.Keys, spec.maxWindow).None?;
    LibraryDefined(spec, p, library, root);
  }

  /** The warm-up error in `_cross_ic` is unreachable: the spec's ranges and the lookback check exclude it. */
  lemma WarmupNeverRaised(spec: Spec, p: Panel, e: Expr, library: seq<Expr>, root: real -> real)
    requires spec.Valid() && ValidPanel(p)
    ensures Evaluation(spec, p, e, library, root) != Err(WarmupRegion)
  {
    ProblemIsNotWarmup(e, p.rows.Keys);
    if p.bars == spec.totalBars && p.assets == spec.assets {
      if DefinitionProblem(e, p.rows.Keys, spec.maxWindow).None? {
        IcDefined(spec, p, e, root);
      }
      if LibraryProblem(library, p.rows.Keys, spec.maxWindow).None? {
        AcceptedLibraryDefined(spec, p, library, root);
      }
    }
  }

  // ---- What the report says.

  /** The factor over the assets at bar `t`. */
  function FactorsAt(p: Panel, e: Expr, t: nat): (r: seq<real>)
    requires ValidPanel(p) && CheckDefinition(e, p.rows.Keys).None? && t < p.bars
    ensures |r| == p.assets && forall a :: 0 <= a < p.assets ==> r[a] == NumberAt(p, e, a, t)
  {
    seq(p.assets, a requires 0 <= a < p.assets => NumberAt(p, e, a, t))
  }

  /** What the next `horizon` bars return, over the assets. */
  function ReturnsAt(p: Panel, horizon: int, t: nat): (r: seq<real>)
    requires ValidPanel(p) && horizon >= 1 && t + horizon < p.bars
    ensures |r| == p.assets && forall a :: 0 <= a < p.assets ==> r[a] == p.rows["close"][a][t + horizon] / p.rows["close"][a][t] - 1.0
  {
    seq(p.assets, a requires 0 <= a < p.assets => p.rows["close"][a][t + horizon] / p.rows["close"][a][t] - 1.0)
  }

  /** The rank correlation, over the assets, of the factor at bar `t` with what the next `horizon` bars returned. */
  function RankIcAt(spec: Spec, p: Panel, e: Expr, t: nat, root: real -> real): real
    requires Runnable(spec, p) && CheckDefinition(e, p.rows.Keys).None? && t + spec.horizon < p.bars
  {
    Spearman(FactorsAt(p, e, t), ReturnsAt(p, spec.horizon, t), root)
  }

  ghost predicate IcAt(spec: Spec, p: Panel, e: Expr, lo: nat, ic: seq<real>, k: nat, root: real -> real)
    requires Runnable(spec, p) && CheckDefinition(e, p.rows.Keys).None? && k < |ic| && lo + |ic| + spec.horizon <= p.bars
  {
    ic[k] == RankIcAt(spec, p, e, lo + k, root)
  }

  /** Number `k` of the series is the rank correlation of bar `lo + k`. */
  ghost predicate IcsFrom(spec: Spec, p: Panel, e: Expr, lo: nat, ic: seq<real>, root: real -> real)
    requires Runnable(spec, p) && CheckDefinition(e, p.rows.Keys).None?
  {
    && lo + |ic| + spec.horizon <= p.bars
    && forall k: nat {:trigger IcAt(spec, p, e, lo, ic, k, root)} :: k < |ic| ==> IcAt(spec, p, e, lo, ic, k, root)
  }

  lemma SeriesIsIcs(spec: Spec, p: Panel, e: Expr, lo: nat, hi: int, root: real -> real)
    requires Runnable(spec, p) && CheckDefinition(e, p.rows.Keys).None? && lo <= hi <= spec.OosEnd()
    requires IcSeries(FactorMatrix(p, e), ForwardReturns(p, spec.horizon), lo, hi, root).Some?
    ensures IcsFrom(spec, p, e, lo, IcSeries(FactorMatrix(p, e), ForwardReturns(p, spec.horizon), lo, hi, root).value, root)
  {
    var ic := IcSeries(FactorMatrix(p, e), ForwardReturns(p, spec.horizon), lo, hi, root).value;
    forall k: nat | k < |ic| ensures IcAt(spec, p, e, lo, ic, k, root) {
      SeriesEntry(spec, p, e, lo, hi, k, root);
    }
  }

  lemma SeriesEntry(spec: Spec, p: Panel, e: Expr, lo: nat, hi: int, k: nat, root: real -> real)
    requires Runnable(spec, p) && CheckDefinition(e, p.rows.Keys).None? && lo + k < hi <= spec.OosEnd()
    requires IcSeries(FactorMatrix(p, e), ForwardReturns(p, spec.horizon), lo, hi, root).Some?
    ensures IcSeries(FactorMatrix(p, e), ForwardReturns(p, spec.horizon), lo, hi, root).value[k] == RankIcAt(spec, p, e, lo + k, root)
  {
    var f: Matrix, fwd: Matrix := FactorMatrix(p, e), ForwardReturns(p, spec.horizon);
    IcSeriesAt(f, fwd, lo, hi, k, root);
    FactorColumn(p, e, lo + k);
    ReturnColumn(p, spec.horizon, lo + k);
  }

  lemma FactorColumn(p: Panel, e: Expr, t: nat)
    requires ValidPanel(p) && CheckDefinition(e, p.rows.Keys).None? && t < p.bars
    requires AllValues(Column(FactorMatrix(p, e), t))
    ensures Numbers(Column(FactorMatrix(p, e), t)) == FactorsAt(p, e, t)
  {
    var f: Matrix := FactorMatrix(p, e);
    forall a: nat | a < p.assets ensures Numbers(Column(f, t))[a] == NumberAt(p, e, a, t) {
      assert Column(f, t)[a].Val?;
    }
  }

  lemma ReturnColumn(p: Panel, horizon: int, t: nat)
    requires ValidPanel(p) && horizon >= 1 && t + horizon < p.bars
    requires AllValues(Column(ForwardReturns(p, horizon), t))
    ensures Numbers(Column(ForwardReturns(p, horizon), t)) == ReturnsAt(p, horizon, t)
  {
    var fwd: Matrix := ForwardReturns(p, horizon);
    forall a: nat | a < p.assets ensures Numbers(Column(fwd, t))[a] == ReturnsAt(p, horizon, t)[a] {
      assert fwd[a][t] == ForwardReturn(p, horizon, a, t);
    }
  }

  lemma {:induction false} LibraryIcAt(spec: Spec, p: Panel, library: seq<Expr>, k: nat, root: real -> real)
    requires Runnable(spec, p) && k < |library|
    requires forall i :: 0 <= i < |library| ==> CheckDefinition(library[i], p.rows.Keys).None?
    requires LibraryIc(spec, p, library, root).Some?
    ensures InSampleIc(spec, p, library[k], root) == Some(LibraryIc(spec, p, library, root).value[k])
    decreases |library|
  {
    if k < |library| - 1 {
      LibraryIcAt(spec, p, library[..|library| - 1], k, root);
    }
  }

  /** The largest absolute correlation with any of the others, and zero when none is greater. */
  ghost predicate IsLargest(m: real, ic: seq<real>, others: seq<seq<real>>, root: real -> real)
    requires forall k :: 0 <= k < |others| ==> |others[k]| == |ic|
  {
    && m >= 0.0
    && (forall k :: 0 <= k < |others| ==> -m <= Pearson(ic, others[k], root) <= m)
    && (m == 0.0 || exists k :: 0 <= k < |others| && (Pearson(ic, others[k], root) == m || Pearson(ic, others[k], root) == -m))
  }

  lemma {:induction false} MaxCorrelationMeans(ic: seq<real>, others: seq<seq<real>>, root: real -> real)
    requires forall k :: 0 <= k < |others| ==> |others[k]| == |ic|
    ensures IsLargest(MaxCorrelation(ic, others, root), ic, others, root)
    decreases |others|
  {
    if others != [] {
      var last := |others| - 1;
      var earlier := others[..last];
      MaxCorrelationMeans(ic, earlier, root);
      var m := MaxCorrelation(ic, earlier, root);
      forall k | 0 <= k < |others| ensures k < last ==> -m <= Pearson(ic, others[k], root) <= m {
        if k < last { assert earlier[k] == others[k]; }
      }
      if m != 0.0 {
        var k :| 0 <= k < |earlier| && (Pearson(ic, earlier[k], root) == m || Pearson(ic, earlier[k], root) == -m);
        assert others[k] == earlier[k];
      }
      assert Pearson(ic, others[last], root) == Magnitude(Pearson(ic, others[last], root))
        || Pearson(ic, others[last], root) == -Magnitude(Pearson(ic, others[last], root));
    }
  }

  /** The positive ratio is the share of buckets whose mean is above zero. */
  lemma {:induction false} PositiveCounts(buckets: seq<seq<real>>)
    ensures CountPositive(buckets) == |set k | 0 <= k < |buckets| && Mean(buckets[k]) > 0.0|
    decreases |buckets|
  {
    if buckets != [] {
      var last := |buckets| - 1;
      var front := buckets[..last];
      PositiveCounts(front);
      var earlier := set k | 0 <= k < |front| && Mean(front[k]) > 0.0;
      assert (set k | 0 <= k < |buckets| && Mean(buckets[k]) > 0.0) == if Mean(buckets[last]) > 0.0 then earlier + {last} else earlier;
    }
  }

  lemma PositiveRatioMeans(ic: seq<real>, size: nat)
    requires size > 0 && ic != []
    ensures var b := Buckets(ic, size); IsAverage(PositiveBucketRatio(ic, size), |set k | 0 <= k < |b| && Mean(b[k]) > 0.0| as real, |b|)
  {
    var b := Buckets(ic, size);
    PositiveCounts(b);
    AverageIs(CountPositive(b) as real, |b|);
  }

  /** An evaluation succeeds exactly when panel and specification fit and every definition is accepted and short enough. */
  lemma EvaluationSucceeds(spec: Spec, p: Panel, e: Expr, library: seq<Expr>, root: real -> real)
    requires spec.Valid() && ValidPanel(p)
    ensures Evaluation(spec, p, e, library, root).Ok? <==>
      && p.bars == spec.totalBars && p.assets == spec.assets
      && CheckDefinition(e, p.rows.Keys).None? && Lookback(e) <= spec.maxWindow
      && forall k :: 0 <= k < |library| ==> CheckDefinition(library[k], p.rows.Keys).None? && Lookback(library[k]) <= spec.maxWindow
  {
    WarmupNeverRaised(spec, p, e, library, root);
    assert forall k :: 0 <= k < |library| ==> (DefinitionProblem(library[k], p.rows.Keys, spec.maxWindow).None? <==>
      CheckDefinition(library[k], p.rows.Keys).None? && Lookback(library[k]) <= spec.maxWindow);
  }

  ghost predicate Accepted(spec: Spec, p: Panel, e: Expr, library: seq<Expr>, root: real -> real) {
    spec.Valid() && ValidPanel(p) && Evaluation(spec, p, e, library, root).Ok?
  }

  /** A report is made of the in-sample series, the library's, the portfolio of the in-sample bars, and the later series. */
  lemma ReportMeans(spec: Spec, p: Panel, e: Expr, library: seq<Expr>, root: real -> real)
    requires Accepted(spec, p, e, library, root)
    ensures Runnable(spec, p) && CheckDefinition(e, p.rows.Keys).None?
    ensures forall k :: 0 <= k < |library| ==> CheckDefinition(library[k], p.rows.Keys).None?
    ensures InSampleIc(spec, p, e, root).Some? && OosIc(spec, p, e, root).Some? && LibraryIc(spec, p, library, root).Some?
    ensures var ic, oos := InSampleIc(spec, p, e, root).value, OosIc(spec, p, e, root).value;
      Evaluation(spec, p, e, library, root).value ==
        Report(InSampleFigures(spec, ic, LibraryIc(spec, p, library, root).value, InSamplePortfolio(spec, p, e, root), root), Mean(oos), Std(oos, root))
  {
    EvaluationSucceeds(spec, p, e, library, root);
  }

  lemma InSamplePortfolioMeans(spec: Spec, p: Panel, e: Expr, root: real -> real)
    requires Runnable(spec, p) && CheckDefinition(e, p.rows.Keys).None?
    ensures InSamplePortfolio(spec, p, e, root) ==
      LongShort(spec, FactorMatrix(p, e), ForwardReturns(p, spec.horizon), spec.maxWindow, spec.InSampleEnd(), root)
  {
  }

  /** Each in-sample figure: mean, deviation and ratio of the series, its recent part, the largest correlation with the library,
      and the portfolio's own. */
  lemma FiguresMean(spec: Spec, ic: seq<real>, others: seq<seq<real>>, portfolio: Portfolio, root: real -> real)
    requires spec.Valid() && |ic| == spec.InSampleEnd() - spec.maxWindow
    requires forall k :: 0 <= k < |others| ==> |others[k]| == |ic|
    ensures var r := InSampleFigures(spec, ic, others, portfolio, root);
      && r.ic == Mean(ic) && r.icStd == Std(ic, root) && r.icIr == RatioOf(Mean(ic), Std(ic, root))
      && r.recentIc == Mean(ic[|ic| - spec.recentBars..])
      && r.yearPositiveRatio == PositiveBucketRatio(ic, spec.bucketBars)
      && r.icCorrelation == MaxCorrelation(ic, others, root)
      && r.sharpe == portfolio.sharpe && r.turnover == portfolio.turnover && r.rebalances == portfolio.rebalances
  {
  }

  /** The in-sample figures are taken from the rank correlations of the bars after the warm-up whose returns end in the sample. */
  lemma InSampleIcMeans(spec: Spec, p: Panel, e: Expr, root: real -> real)
    requires Runnable(spec, p) && CheckDefinition(e, p.rows.Keys).None? && InSampleIc(spec, p, e, root).Some?
    ensures var ic := InSampleIc(spec, p, e, root).value;
      |ic| == spec.inSampleBars - spec.horizon - spec.maxWindow && IcsFrom(spec, p, e, spec.maxWindow, ic, root)
  {
    SeriesIsIcs(spec, p, e, spec.maxWindow, spec.InSampleEnd(), root);
  }

  /** The out-of-sample figures are taken from the rank correlations of all bars after the sample that have a return. */
  lemma OosIcMeans(spec: Spec, p: Panel, e: Expr, root: real -> real)
    requires Runnable(spec, p) && CheckDefinition(e, p.rows.Keys).None? && OosIc(spec, p, e, root).Some?
    ensures var oos := OosIc(spec, p, e, root).value;
      |oos| == spec.totalBars - spec.horizon - spec.inSampleBars && IcsFrom(spec, p, e, spec.inSampleBars, oos, root)
  {
    SeriesIsIcs(spec, p, e, spec.inSampleBars, spec.OosEnd(), root);
  }

  /** The portfolio figures come from the net returns and the changes of the rebalances. */
  lemma LongShortMeans(spec: Spec, factor: Matrix, forward: Matrix, start: nat, end: int, root: real -> real) returns (nets: seq<real>, turnovers: seq<real>)
    requires TablesFor(spec, factor, forward) && start < end <= spec.totalBars
    ensures nets == PeriodReturns(TargetTable(spec, factor), GainTable(spec, forward), TradingCost(spec), spec.horizon, Zeros(spec.assets), start, end)
    ensures turnovers == LaterTurnovers(TargetTable(spec, factor), spec.assets, spec.horizon, start, end)
    ensures Summarises(LongShort(spec, factor, forward, start, end, root), nets, turnovers, spec.horizon, root)
  {
    nets, turnovers := PortfolioMeans(TargetTable(spec, factor), GainTable(spec, forward), spec.assets, TradingCost(spec), spec.horizon, start, end, root);
  }

  predicate Summarises(r: Portfolio, nets: seq<real>, turnovers: seq<real>, horizon: int, root: real -> real)
    requires horizon >= 1
  {
    && r.rebalances == |nets| == |turnovers| + 1 && r.turnover == Mean(turnovers)
    && IsSharpe(r.sharpe, Mean(nets), Std(nets, root), root(252.0 / horizon as real))
  }

  lemma PortfolioMeans(targets: seq<seq<real>>, gains: seq<seq<real>>, assets: nat, cost: real -> real, horizon: int, start: nat, end: int, root: real -> real)
    returns (nets: seq<real>, turnovers: seq<real>)
    requires |targets| == |gains| && end <= |targets| && horizon >= 1 && start < end
    requires Widths(targets, assets) && Widths(gains, assets)
    ensures nets == PeriodReturns(targets, gains, cost, horizon, Zeros(assets), start, end)
    ensures turnovers == LaterTurnovers(targets, assets, horizon, start, end)
    ensures Summarises(LongShortOf(targets, gains, assets, cost, horizon, start, end, root), nets, turnovers, horizon, root)
  {
    nets := PeriodReturns(targets, gains, cost, horizon, Zeros(assets), start, end);
    turnovers := LaterTurnovers(targets, assets, horizon, start, end);
    PeriodCount(targets, gains, cost, horizon, Zeros(assets), start, end);
    TurnoverCount(targets, assets, horizon, start, end);
    SharpeMeans(Mean(nets), Std(nets, root), root(252.0 / horizon as real));
  }

  /** Mean over deviation, scaled from holding periods to a year; nothing where the returns hardly vary. */
  predicate IsSharpe(sharpe: real, mean: real, std: real, yearly: real) {
    if std > EPSILON then sharpe * std == mean * yearly else sharpe == 0.0
  }

  lemma SharpeMeans(mean: real, std: real, yearly: real)
    ensures IsSharpe(RatioOf(mean, std) * yearly, mean, std, yearly)
  {
    RatioMeans(mean, std);
  }

  /** The two panels are the same data up to the end of the sample; afterwards anything may differ. */
  ghost predicate SamePast(p: Panel, q: Panel, bars: int) {
    SameShape(p, q) && forall a: nat {:trigger AgreeOn(p, q, a, 0, bars)} :: a < p.assets ==> AgreeOn(p, q, a, 0, bars)
  }

  lemma FactorsSame(p: Panel, q: Panel, e: Expr, bars: int, lo: int, hi: int)
    requires SamePast(p, q, bars) && CheckDefinition(e, p.rows.Keys).None? && hi <= bars
    ensures SameColumns(FactorMatrix(p, e), FactorMatrix(q, e), p.assets, p.bars, lo, hi)
  {
    var f, g := FactorMatrix(p, e), FactorMatrix(q, e);
    forall a: nat, t: nat | a < p.assets && t < p.bars && lo <= t < hi ensures f[a][t] == g[a][t] {
      assert AgreeOn(p, q, a, 0, bars);
      ValueIsLocal(p, q, e, a, t);
    }
  }

  lemma ForwardsSame(p: Panel, q: Panel, horizon: int, bars: int, lo: int, hi: int)
    requires SamePast(p, q, bars) && horizon >= 1 && hi + horizon <= bars
    ensures SameColumns(ForwardReturns(p, horizon), ForwardReturns(q, horizon), p.assets, p.bars, lo, hi)
  {
    var f, g := ForwardReturns(p, horizon), ForwardReturns(q, horizon);
    forall a: nat, t: nat | a < p.assets && t < p.bars && lo <= t < hi ensures f[a][t] == g[a][t] {
      assert AgreeOn(p, q, a, 0, bars);
      assert SameCell(p, q, "close", a, t);
      if t + horizon < p.bars {
        assert SameCell(p, q, "close", a, t + horizon);
      }
      assert f[a][t] == ForwardReturn(p, horizon, a, t) && g[a][t] == ForwardReturn(q, horizon, a, t);
    }
  }

  lemma InSampleIcSame(spec: Spec, p: Panel, q: Panel, e: Expr, root: real -> real)
    requires Runnable(spec, p) && SamePast(p, q, spec.inSampleBars) && CheckDefinition(e, p.rows.Keys).None?
    ensures InSampleIc(spec, p, e, root) == InSampleIc(spec, q, e, root)
  {
    var lo, hi := spec.maxWindow, spec.InSampleEnd();
    FactorsSame(p, q, e, spec.inSampleBars, lo, hi);
    ForwardsSame(p, q, spec.horizon, spec.inSampleBars, lo, hi);
    IcSeriesSame(FactorMatrix(p, e), FactorMatrix(q, e), ForwardReturns(p, spec.horizon), ForwardReturns(q, spec.horizon),
                 p.assets, p.bars, lo, hi, root);
  }

  lemma {:induction false} LibraryIcSame(spec: Spec, p: Panel, q: Panel, library: seq<Expr>, root: real -> real)
    requires Runnable(spec, p) && SamePast(p, q, spec.inSampleBars)
    requires forall k :: 0 <= k < |library| ==> CheckDefinition(library[k], p.rows.Keys).None?
    ensures LibraryIc(spec, p, library, root) == LibraryIc(spec, q, library, root)
  {
    if library != [] {
      LibraryIcSame(spec, p, q, library[..|library| - 1], root);
      InSampleIcSame(spec, p, q, library[|library| - 1], root);
    }
  }

  lemma InSamplePortfolioSame(spec: Spec, p: Panel, q: Panel, e: Expr, root: real -> real)
    requires Runnable(spec, p) && SamePast(p, q, spec.inSampleBars) && CheckDefinition(e, p.rows.Keys).None?
    ensures InSamplePortfolio(spec, p, e, root) == InSamplePortfolio(spec, q, e, root)
  {
    var lo, hi := spec.maxWindow, spec.InSampleEnd();
    FactorsSame(p, q, e, spec.inSampleBars, lo, hi);
    ForwardsSame(p, q, spec.horizon, spec.inSampleBars, lo, hi);
    LongShortSame(spec, FactorMatrix(p, e), FactorMatrix(q, e), ForwardReturns(p, spec.horizon), ForwardReturns(q, spec.horizon), lo, hi, root);
  }

  /**
   * No look-ahead: two panels that agree on every bar before the end of the sample get the same
   * verdict and the same in-sample figures, whatever their later bars, the factor and the library.
   */
  lemma NoLookAhead(spec: Spec, p: Panel, q: Panel, e: Expr, library: seq<Expr>, root: real -> real)
    requires spec.Valid() && SamePast(p, q, spec.inSampleBars)
    ensures var r, s := Evaluation(spec, p, e, library, root), Evaluation(spec, q, e, library, root);
      && (r.Err? ==> s == r)
      && (r.Ok? ==> s.Ok? && s.value.inSample == r.value.inSample)
  {
    WarmupNeverRaised(spec, p, e, library, root);
    WarmupNeverRaised(spec, q, e, library, root);
    if p.bars == spec.totalBars && p.assets == spec.assets
      && DefinitionProblem(e, p.rows.Keys, spec.maxWindow).None? && LibraryProblem(library, p.rows.Keys, spec.maxWindow).None?
    {
      assert forall k :: 0 <= k < |library| ==> DefinitionProblem(library[k], p.rows.Keys, spec.maxWindow).None?;
      InSampleIcSame(spec, p, q, e, root);
      LibraryIcSame(spec, p, q, library, root);
      InSamplePortfolioSame(spec, p, q, e, root);
    }
  }
}
