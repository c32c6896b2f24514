// domain_sdk/factor_adaptation.py: the bounded quota solver and the feedback governor.
// Floats are reals; the 1e-12 and 1e-9 tolerances are taken as zero.

module RealArithmetic {

  lemma MulNonneg(a: real, b: real)
    requires a >= 0.0 && b >= 0.0
    ensures a * b >= 0.0
  {
  }

  lemma MulPositive(a: real, b: real)
    requires a > 0.0 && b > 0.0
    ensures a * b > 0.0
  {
  }

  lemma DivBounds(a: real, b: real)
    requires 0.0 <= a <= b && b > 0.0
    ensures 0.0 <= a / b <= 1.0
  {
  }

  lemma DivLess(a: real, b: real, c: real)
    requires b > 0.0 && a < c * b
    ensures a / b < c
  {
    var q := a / b;
    assert q * b == a;
    if q >= c {
      MulNonneg(q - c, b);
    }
  }

  /** `q` is `c * x / w`, without the division. */
  predicate IsQuotient(q: real, c: real, x: real, w: real) {
    q * w == c * x
  }

  lemma QuotientIs(c: real, x: real, w: real)
    requires w != 0.0
    ensures IsQuotient(c * x / w, c, x, w)
  {
  }

  lemma QuotientOfWhole(q: real, c: real, w: real)
    requires w != 0.0 && IsQuotient(q, c, w, w)
    ensures q == c
  {
    assert (q - c) * w == 0.0;
  }
}

module RealSums {
  import opened RealArithmetic

  function Sum(s: seq<real>): real {
    if s == [] then 0.0 else s[0] + Sum(s[1..])
  }

  lemma {:induction false} SumUpdate(s: seq<real>, i: nat, x: real)
    requires i < |s|
    ensures Sum(s[i := x]) == Sum(s) - s[i] + x
  {
    if i == 0 {
      assert s[i := x][1..] == s[1..];
    } else {
      SumUpdate(s[1..], i - 1, x);
      assert s[i := x][1..] == s[1..][i - 1 := x];
    }
  }

  lemma {:induction false} SumMonotone(a: seq<real>, b: seq<real>)
    requires |a| == |b| && forall i :: 0 <= i < |a| ==> a[i] <= b[i]
    ensures Sum(a) <= Sum(b)
  {
    if a != [] {
      SumMonotone(a[1..], b[1..]);
    }
  }

  lemma {:induction false} SumAppend(a: seq<real>, x: real)
    ensures Sum(a + [x]) == Sum(a) + x
  {
    if a == [] {
    } else {
      assert (a + [x])[1..] == a[1..] + [x];
      SumAppend(a[1..], x);
    }
  }

  lemma {:induction false} SumCross(a: seq<real>, q: seq<real>, c: real, w: real)
    requires |a| == |q| && forall i :: 0 <= i < |a| ==> IsQuotient(q[i], c, a[i], w)
    ensures IsQuotient(Sum(q), c, Sum(a), w)
  {
    if a != [] {
      SumCross(a[1..], q[1..], c, w);
      assert IsQuotient(q[0], c, a[0], w);
    }
  }

  /** Proportional parts of `c` add up to `c`. */
  lemma ProportionsSum(a: seq<real>, q: seq<real>, c: real)
    requires |a| == |q| && Sum(a) != 0.0
    requires forall i :: 0 <= i < |a| ==> IsQuotient(q[i], c, a[i], Sum(a))
    ensures Sum(q) == c
  {
    SumCross(a, q, c, Sum(a));
    QuotientOfWhole(Sum(q), c, Sum(a));
  }

  /** The sum of `v` over a list of positions. */
  function SumAt(v: seq<real>, at: seq<nat>): real
    requires forall k :: 0 <= k < |at| ==> at[k] < |v|
  {
    if at == [] then 0.0 else SumAt(v, at[..|at| - 1]) + v[at[|at| - 1]]
  }

  lemma {:induction false} SumAtCross(a: seq<real>, q: seq<real>, at: seq<nat>, c: real, w: real)
    requires |a| == |q| && forall k :: 0 <= k < |at| ==> at[k] < |a|
    requires forall i :: 0 <= i < |a| ==> IsQuotient(q[i], c, a[i], w)
    ensures IsQuotient(SumAt(q, at), c, SumAt(a, at), w)
  {
    if at != [] {
      var i := at[|at| - 1];
      SumAtCross(a, q, at[..|at| - 1], c, w);
      assert IsQuotient(q[i], c, a[i], w);
    }
  }

  lemma ProportionsSumAt(a: seq<real>, q: seq<real>, at: seq<nat>, c: real)
    requires |a| == |q| && forall k :: 0 <= k < |at| ==> at[k] < |a|
    requires SumAt(a, at) != 0.0
    requires forall i :: 0 <= i < |a| ==> IsQuotient(q[i], c, a[i], SumAt(a, at))
    ensures SumAt(q, at) == c
  {
    SumAtCross(a, q, at, c, SumAt(a, at));
    QuotientOfWhole(SumAt(q, at), c, SumAt(a, at));
  }

  lemma {:induction false} SumAtMonotone(a: seq<real>, b: seq<real>, at: seq<nat>)
    requires |a| == |b| && forall k :: 0 <= k < |at| ==> at[k] < |a| && a[at[k]] <= b[at[k]]
    ensures SumAt(a, at) <= SumAt(b, at)
    ensures (exists k :: 0 <= k < |at| && a[at[k]] < b[at[k]]) ==> SumAt(a, at) < SumAt(b, at)
  {
    if at != [] {
      var front := at[..|at| - 1];
      SumAtMonotone(a, b, front);
      if k :| 0 <= k < |at| && a[at[k]] < b[at[k]] {
        if k < |front| {
          assert a[front[k]] < b[front[k]];
        }
      }
    }
  }

  ghost function AllPositions(n: nat): (r: seq<nat>)
    ensures |r| == n && forall i :: 0 <= i < n ==> r[i] == i
  {
    seq(n, i => i)
  }

  lemma {:induction false} SumAtPrefix(v: seq<real>, n: nat)
    requires n <= |v|
    ensures SumAt(v, AllPositions(n)) == Sum(v[..n])
  {
    if n > 0 {
      SumAtPrefix(v, n - 1);
      assert AllPositions(n)[..n - 1] == AllPositions(n - 1);
      assert v[..n] == v[..n - 1] + [v[n - 1]];
      SumAppend(v[..n - 1], v[n - 1]);
    }
  }
}

/** `_bounded_proportional`: clamp, then hand the residual round in passes. */
module QuotaSolver {
  import opened Wrappers
  import opened RealSums
  import opened RealArithmetic

  datatype Item = Item(weight: real, low: real, high: real)

  ghost predicate ValidItems(items: seq<Item>) {
    && (forall i :: 0 <= i < |items| ==> items[i].weight >= 0.0 && 0.0 <= items[i].low <= items[i].high)
    && Sum(Weights(items)) > 0.0
  }

  function Weights(items: seq<Item>): (r: seq<real>)
    ensures |r| == |items|
  {
    seq(|items|, i requires 0 <= i < |items| => items[i].weight)
  }

  function Lows(items: seq<Item>): (r: seq<real>)
    ensures |r| == |items|
  {
    seq(|items|, i requires 0 <= i < |items| => items[i].low)
  }

  /** A strategy without weight never receives any residual, so its low bound is all it can reach. */
  function Reach(item: Item): real {
    if item.weight == 0.0 then item.low else item.high
  }

  function Reaches(items: seq<Item>): (r: seq<real>)
    ensures |r| == |items|
  {
    seq(|items|, i requires 0 <= i < |items| => Reach(items[i]))
  }

  /** The caller-checkable condition under which a total can be distributed at all. */
  ghost predicate Feasible(total: real, items: seq<Item>) {
    Sum(Lows(items)) <= total <= Sum(Reaches(items))
  }

  function Clamp(x: real, low: real, high: real): real {
    var raised := if x < low then low else x;
    if raised > high then high else raised
  }

  function Abs(x: real): real { if x < 0.0 then -x else x }

  function Share(total: real, item: Item, weightSum: real): real
    requires weightSum != 0.0
  {
    total * item.weight / weightSum
  }

  /** What the pass adds to one strategy: its proportional delta, cut off at the bound it moves towards. */
  function Applied(item: Item, current: real, delta: real): real {
    var room := if delta > 0.0 then item.high - current else item.low - current;
    if Abs(delta) <= Abs(room) then delta else room
  }

  function StaysFree(item: Item, current: real, delta: real): bool {
    var room := if delta > 0.0 then item.high - current else item.low - current;
    Abs(delta) != Abs(room) && room != 0.0
  }

  // ---- The state between passes.

  ghost predicate InBounds(items: seq<Item>, alloc: seq<real>) {
    && |alloc| == |items|
    && forall i :: 0 <= i < |items| ==> items[i].low <= alloc[i] <= Reach(items[i])
  }

  ghost predicate ValidFree(items: seq<Item>, free: seq<nat>) {
    && (forall k :: 0 <= k < |free| ==> free[k] < |items|)
    && (forall j, k :: 0 <= j < k < |free| ==> free[j] != free[k])
  }

  /** How far a strategy can still move in the direction of the residual. */
  function Slack(item: Item, current: real, up: bool): real {
    if item.weight == 0.0 then 0.0 else if up then item.high - current else current - item.low
  }

  ghost function Slacks(items: seq<Item>, alloc: seq<real>, up: bool): (r: seq<real>)
    requires |alloc| == |items|
    ensures |r| == |items|
  {
    seq(|items|, i requires 0 <= i < |items| => Slack(items[i], alloc[i], up))
  }

  /** Members of `free` that can still move. */
  ghost function Movable(slack: seq<real>, free: seq<nat>): nat
    requires forall k :: 0 <= k < |free| ==> free[k] < |slack|
  {
    if free == [] then 0
    else Movable(slack, free[..|free| - 1]) + if slack[free[|free| - 1]] > 0.0 then 1 else 0
  }

  /**
   * An upper bound on the passes still needed. A strategy that hits its bound keeps its weight
   * in the free list for one more pass, so it costs two passes unless nobody is stuck right now.
   */
  ghost function Potential(slack: seq<real>, free: seq<nat>): int
    requires forall k :: 0 <= k < |free| ==> free[k] < |slack|
  {
    2 * Movable(slack, free) - if Movable(slack, free) == |free| then 1 else 0
  }

  ghost predicate StuckOutside(items: seq<Item>, alloc: seq<real>, up: bool, free: seq<nat>)
    requires |alloc| == |items|
  {
    forall i :: 0 <= i < |items| && i !in free ==> Slack(items[i], alloc[i], up) == 0.0
  }

  ghost predicate State(items: seq<Item>, total: real, alloc: seq<real>, residual: real, free: seq<nat>) {
    && ValidItems(items) && InBounds(items, alloc) && ValidFree(items, free)
    && residual == total - Sum(alloc)
    && (residual != 0.0 ==> StuckOutside(items, alloc, residual > 0.0, free))
    && (free != [] ==> SumAt(Weights(items), free) > 0.0)
  }

  lemma {:induction false} MovableBounds(slack: seq<real>, free: seq<nat>)
    requires forall k :: 0 <= k < |free| ==> free[k] < |slack|
    ensures Movable(slack, free) <= |free|
    ensures (exists k :: 0 <= k < |free| && slack[free[k]] > 0.0) ==> Movable(slack, free) >= 1
    ensures Movable(slack, free) == |free| <==> forall k :: 0 <= k < |free| ==> slack[free[k]] > 0.0
  {
    if free != [] {
      var front := free[..|free| - 1];
      MovableBounds(slack, front);
      if k :| 0 <= k < |free| && slack[free[k]] > 0.0 {
        if k < |front| { assert slack[front[k]] > 0.0; }
      }
      if k :| 0 <= k < |front| && slack[front[k]] <= 0.0 {
        assert slack[free[k]] <= 0.0;
      }
    }
  }

  /** A residual on a feasible total leaves somebody who can move, so the potential is positive. */
  lemma ResidualNeedsSlack(items: seq<Item>, total: real, alloc: seq<real>, residual: real, free: seq<nat>)
    requires State(items, total, alloc, residual, free) && Feasible(total, items)
    requires residual != 0.0
    ensures Potential(Slacks(items, alloc, residual > 0.0), free) >= 1
  {
    var slack := Slacks(items, alloc, residual > 0.0);
    if forall k :: 0 <= k < |free| ==> slack[free[k]] <= 0.0 {
      forall i | 0 <= i < |items| ensures slack[i] <= 0.0 {
        if i in free {
          var k :| 0 <= k < |free| && free[k] == i;
        }
      }
      if residual > 0.0 {
        SumMonotone(Reaches(items), alloc);
      } else {
        SumMonotone(alloc, Lows(items));
      }
      assert false;
    }
    MovableBounds(slack, free);
  }

  // ---- One pass.

  ghost function Deltas(items: seq<Item>, residual: real, freeWeight: real): (r: seq<real>)
    requires freeWeight != 0.0
    ensures |r| == |items|
  {
    seq(|items|, i requires 0 <= i < |items| => Share(residual, items[i], freeWeight))
  }

  ghost function AppliedAmounts(items: seq<Item>, alloc: seq<real>, deltas: seq<real>): (r: seq<real>)
    requires |alloc| == |items| == |deltas|
    ensures |r| == |items|
  {
    seq(|items|, i requires 0 <= i < |items| => Applied(items[i], alloc[i], deltas[i]))
  }

  ghost function Keep(items: seq<Item>, alloc: seq<real>, deltas: seq<real>, free: seq<nat>): (r: seq<nat>)
    requires |alloc| == |items| == |deltas|
    requires forall k :: 0 <= k < |free| ==> free[k] < |items|
    ensures forall k :: 0 <= k < |r| ==> r[k] < |items|
  {
    if free == [] then []
    else
      var i := free[|free| - 1];
      WithItem(Keep(items, alloc, deltas, free[..|free| - 1]), i, StaysFree(items[i], alloc[i], deltas[i]))
  }

  function WithItem(free: seq<nat>, i: nat, stays: bool): seq<nat> {
    if stays then free + [i] else free
  }

  /** The items in `done` have had their turn. */
  ghost predicate PassSoFar(items: seq<Item>, alloc0: seq<real>, deltas: seq<real>, done: seq<nat>, alloc: seq<real>, progress: real, free: seq<nat>)
    requires |alloc0| == |items| == |deltas| && ValidFree(items, done)
  {
    Added(alloc0, AppliedAmounts(items, alloc0, deltas), done, alloc, progress) && free == Keep(items, alloc0, deltas, done)
  }

  ghost predicate Added(alloc0: seq<real>, amounts: seq<real>, done: seq<nat>, alloc: seq<real>, progress: real)
    requires |amounts| == |alloc0| && forall k :: 0 <= k < |done| ==> done[k] < |alloc0|
  {
    && |alloc| == |alloc0|
    && (forall i :: 0 <= i < |alloc0| ==> alloc[i] == alloc0[i] + if i in done then amounts[i] else 0.0)
    && progress == SumAt(amounts, done)
    && progress == Sum(alloc) - Sum(alloc0)
  }

  lemma SumAtNext(v: seq<real>, at: seq<nat>, i: nat)
    requires (forall k :: 0 <= k < |at| ==> at[k] < |v|) && i < |v|
    ensures SumAt(v, at + [i]) == SumAt(v, at) + v[i]
  {
    assert (at + [i])[..|at|] == at;
  }

  lemma KeepNext(items: seq<Item>, alloc: seq<real>, deltas: seq<real>, free: seq<nat>, i: nat)
    requires |alloc| == |items| == |deltas| && i < |items| && forall k :: 0 <= k < |free| ==> free[k] < |items|
    ensures Keep(items, alloc, deltas, free + [i]) == WithItem(Keep(items, alloc, deltas, free), i, StaysFree(items[i], alloc[i], deltas[i]))
  {
    assert (free + [i])[..|free|] == free;
  }

  lemma AddedNext(alloc0: seq<real>, amounts: seq<real>, done: seq<nat>, i: nat, alloc: seq<real>, progress: real)
    requires |amounts| == |alloc0| && (forall k :: 0 <= k < |done| ==> done[k] < |alloc0|) && i < |alloc0| && i !in done
    requires Added(alloc0, amounts, done, alloc, progress)
    ensures Added(alloc0, amounts, done + [i], alloc[i := alloc[i] + amounts[i]], progress + amounts[i])
  {
    SumAtNext(amounts, done, i);
    SumUpdate(alloc, i, alloc[i] + amounts[i]);
  }

  method SumFreeWeights(items: seq<Item>, free: seq<nat>) returns (w: real)
    requires ValidFree(items, free)
    ensures w == SumAt(Weights(items), free)
  {
    w := 0.0;
    for k := 0 to |free|
      invariant w == SumAt(Weights(items), free[..k])
    {
      assert free[..k + 1][..k] == free[..k];
      w := w + items[free[k]].weight;
    }
    assert free[..|free|] == free;
  }

  lemma ValidNext(items: seq<Item>, done: seq<nat>, i: nat)
    requires ValidFree(items, done) && i < |items| && i !in done
    ensures ValidFree(items, done + [i])
  {
  }

  /** One more item has had its turn. */
  lemma PassSoFarNext(items: seq<Item>, alloc0: seq<real>, deltas: seq<real>, done: seq<nat>, i: nat, applied: real, stays: bool,
                      alloc: seq<real>, progress: real, free: seq<nat>)
    requires |alloc0| == |items| == |deltas| && ValidFree(items, done) && i < |items| && i !in done
    requires PassSoFar(items, alloc0, deltas, done, alloc, progress, free)
    requires applied == AppliedAmounts(items, alloc0, deltas)[i] && stays == StaysFree(items[i], alloc0[i], deltas[i])
    ensures ValidFree(items, done + [i])
    ensures PassSoFar(items, alloc0, deltas, done + [i], alloc[i := alloc[i] + applied], progress + applied, WithItem(free, i, stays))
  {
    AddedNext(alloc0, AppliedAmounts(items, alloc0, deltas), done, i, alloc, progress);
    KeepNext(items, alloc0, deltas, done, i);
    ValidNext(items, done, i);
  }

  method PassOne(items: seq<Item>, ghost alloc0: seq<real>, ghost deltas: seq<real>, ghost done: seq<nat>, i: nat, delta: real,
                 alloc0': seq<real>, progress0: real, free0: seq<nat>)
    returns (alloc: seq<real>, progress: real, free: seq<nat>)
    requires |alloc0| == |items| == |deltas| && ValidFree(items, done) && i < |items| && i !in done && delta == deltas[i]
    requires PassSoFar(items, alloc0, deltas, done, alloc0', progress0, free0)
    ensures ValidFree(items, done + [i])
    ensures PassSoFar(items, alloc0, deltas, done + [i], alloc, progress, free)
  {
    assert alloc0'[i] == alloc0[i];
    var applied := Applied(items[i], alloc0'[i], delta);
    var stays := StaysFree(items[i], alloc0'[i], delta);
    PassSoFarNext(items, alloc0, deltas, done, i, applied, stays, alloc0', progress0, free0);
    alloc, progress := alloc0'[i := alloc0'[i] + applied], progress0 + applied;
    free := WithItem(free0, i, stays);
  }

  method Pass(items: seq<Item>, alloc0: seq<real>, residual: real, free0: seq<nat>)
    returns (alloc: seq<real>, progress: real, free: seq<nat>)
    requires |alloc0| == |items| && ValidFree(items, free0) && SumAt(Weights(items), free0) > 0.0
    ensures PassSoFar(items, alloc0, Deltas(items, residual, SumAt(Weights(items), free0)), free0, alloc, progress, free)
  {
    var freeWeight := SumFreeWeights(items, free0);
    ghost var deltas := Deltas(items, residual, freeWeight);
    ghost var done: seq<nat> := [];
    alloc, progress, free := alloc0, 0.0, [];
    for k := 0 to |free0|
      invariant done == free0[..k] && ValidFree(items, done)
      invariant PassSoFar(items, alloc0, deltas, done, alloc, progress, free)
    {
      assert free0[k] !in done;
      var delta := Share(residual, items[free0[k]], freeWeight);
      alloc, progress, free := PassOne(items, alloc0, deltas, done, free0[k], delta, alloc, progress, free);
      done := done + [free0[k]];
    }
    assert done == free0;
  }

  function Magnitude(x: real, up: bool): real { if up then x else -x }

  /** One strategy in one pass, written as a distance from its bound. */
  lemma ItemPass(item: Item, current: real, delta: real, up: bool)
    requires item.weight >= 0.0 && item.low <= current <= Reach(item) && item.low <= item.high
    requires Magnitude(delta, up) >= 0.0 && (item.weight == 0.0 <==> delta == 0.0)
    ensures
      var slack := Slack(item, current, up);
      var moved := Magnitude(Applied(item, current, delta), up);
      && moved == (if Magnitude(delta, up) <= slack then Magnitude(delta, up) else slack)
      && Slack(item, current + Applied(item, current, delta), up) == slack - moved
      && item.low <= current + Applied(item, current, delta) <= Reach(item)
      && (StaysFree(item, current, delta) <==> slack != Magnitude(delta, up) && slack != 0.0)
  {
  }

  predicate PartOk(item: Item, residual: real, delta: real) {
    (delta == 0.0 <==> item.weight == 0.0) && Magnitude(delta, residual > 0.0) >= 0.0
  }

  /** Parts of the residual: they point its way, vanish exactly without weight, and those of the free items add up to it. */
  ghost predicate Parts(items: seq<Item>, residual: real, deltas: seq<real>, free: seq<nat>)
    requires ValidFree(items, free)
  {
    && |deltas| == |items| && SumAt(deltas, free) == residual
    && forall i :: 0 <= i < |items| ==> PartOk(items[i], residual, deltas[i])
  }

  lemma DeltaSign(item: Item, residual: real, freeWeight: real)
    requires item.weight >= 0.0 && freeWeight > 0.0 && residual != 0.0
    ensures PartOk(item, residual, Share(residual, item, freeWeight))
  {
  }

  /** The deltas of a pass are such parts. From here on it no longer matters how they are computed. */
  lemma DeltasAreParts(items: seq<Item>, residual: real, free: seq<nat>)
    requires ValidFree(items, free) && SumAt(Weights(items), free) > 0.0 && residual != 0.0
    requires forall i :: 0 <= i < |items| ==> items[i].weight >= 0.0
    ensures Parts(items, residual, Deltas(items, residual, SumAt(Weights(items), free)), free)
  {
    var w := SumAt(Weights(items), free);
    forall i | 0 <= i < |items| ensures PartOk(items[i], residual, Deltas(items, residual, w)[i]) {
      DeltaSign(items[i], residual, w);
    }
    DeltasAreQuotients(items, residual, w);
    ProportionsSumAt(Weights(items), Deltas(items, residual, w), free, residual);
  }

  lemma DeltasAreQuotients(items: seq<Item>, residual: real, w: real)
    requires w != 0.0
    ensures forall i :: 0 <= i < |items| ==> IsQuotient(Deltas(items, residual, w)[i], residual, Weights(items)[i], w)
  {
    forall i | 0 <= i < |items| ensures IsQuotient(Deltas(items, residual, w)[i], residual, Weights(items)[i], w) {
      QuotientIs(residual, items[i].weight, w);
    }
  }

  lemma {:induction false} KeepFacts(items: seq<Item>, alloc: seq<real>, residual: real, deltas: seq<real>, free: seq<nat>)
    requires InBounds(items, alloc) && ValidFree(items, free) && |deltas| == |items|
    requires forall i :: 0 <= i < |items| ==> PartOk(items[i], residual, deltas[i]) && items[i].weight >= 0.0 && items[i].low <= items[i].high
    ensures var kept := Keep(items, alloc, deltas, free);
      && ValidFree(items, kept)
      && (forall i: nat :: i in kept <==> i in free && StaysFree(items[i], alloc[i], deltas[i]))
      && |kept| <= Movable(Slacks(items, alloc, residual > 0.0), free)
  {
    if free != [] {
      var front, i := free[..|free| - 1], free[|free| - 1];
      KeepFacts(items, alloc, residual, deltas, front);
      assert free == front + [i] && i !in front;
      ItemPass(items[i], alloc[i], deltas[i], residual > 0.0);
    }
  }

  lemma {:induction false} PositiveSumAt(v: seq<real>, at: seq<nat>)
    requires at != [] && forall k :: 0 <= k < |at| ==> at[k] < |v| && v[at[k]] > 0.0
    ensures SumAt(v, at) > 0.0
  {
    if |at| > 1 {
      PositiveSumAt(v, at[..|at| - 1]);
    }
  }

  /** Every position, seen through one pass. */
  lemma PositionAfterPass(items: seq<Item>, total: real, alloc0: seq<real>, residual: real, deltas: seq<real>, free0: seq<nat>, alloc: seq<real>, progress: real, free: seq<nat>, i: nat)
    requires State(items, total, alloc0, residual, free0) && residual != 0.0 && Parts(items, residual, deltas, free0)
    requires PassSoFar(items, alloc0, deltas, free0, alloc, progress, free)
    requires i < |items|
    ensures
      var up := residual > 0.0;
      var before := Slack(items[i], alloc0[i], up);
      && items[i].low <= alloc[i] <= Reach(items[i])
      && (i !in free0 ==> Slack(items[i], alloc[i], up) == 0.0)
      && (i in free0 ==> Slack(items[i], alloc[i], up) == (if Magnitude(deltas[i], up) <= before then before - Magnitude(deltas[i], up) else 0.0))
      && before >= 0.0
      && (StaysFree(items[i], alloc0[i], deltas[i]) <==> before != Magnitude(deltas[i], up) && before != 0.0)
  {
    ItemPass(items[i], alloc0[i], deltas[i], residual > 0.0);
  }

  /** The residual keeps its sign, and it only survives if somebody ran into a bound. */
  lemma ResidualShrinks(items: seq<Item>, total: real, alloc0: seq<real>, residual: real, deltas: seq<real>, free0: seq<nat>, alloc: seq<real>, progress: real, free: seq<nat>)
    returns (hit: nat)
    requires State(items, total, alloc0, residual, free0) && residual != 0.0 && Parts(items, residual, deltas, free0)
    requires PassSoFar(items, alloc0, deltas, free0, alloc, progress, free)
    ensures residual > 0.0 ==> residual - progress >= 0.0
    ensures residual < 0.0 ==> residual - progress <= 0.0
    ensures residual - progress != 0.0 ==>
      && hit < |free0|
      && Slack(items[free0[hit]], alloc0[free0[hit]], residual > 0.0) < Magnitude(deltas[free0[hit]], residual > 0.0)
  {
    hit := 0;
    var up, amounts := residual > 0.0, AppliedAmounts(items, alloc0, deltas);
    forall i | 0 <= i < |items|
      ensures Magnitude(amounts[i], up) <= Magnitude(deltas[i], up)
      ensures amounts[i] == deltas[i] || Slack(items[i], alloc0[i], up) < Magnitude(deltas[i], up)
    {
      ItemPass(items[i], alloc0[i], deltas[i], up);
    }
    if up {
      SumAtMonotone(amounts, deltas, free0);
    } else {
      SumAtMonotone(deltas, amounts, free0);
    }
    if k :| 0 <= k < |free0| && amounts[free0[k]] != deltas[free0[k]] {
      hit := k;
    } else {
      SumAtMonotone(amounts, deltas, free0);
      SumAtMonotone(deltas, amounts, free0);
    }
  }

  lemma StateAfterPass(items: seq<Item>, total: real, alloc0: seq<real>, residual: real, deltas: seq<real>, free0: seq<nat>, alloc: seq<real>, progress: real, free: seq<nat>)
    requires State(items, total, alloc0, residual, free0) && residual != 0.0 && Parts(items, residual, deltas, free0)
    requires PassSoFar(items, alloc0, deltas, free0, alloc, progress, free)
    ensures State(items, total, alloc, residual - progress, free)
  {
    KeepFacts(items, alloc0, residual, deltas, free0);
    var hit := ResidualShrinks(items, total, alloc0, residual, deltas, free0, alloc, progress, free);
    forall i: nat | i < |items|
      ensures items[i].low <= alloc[i] <= Reach(items[i])
      ensures i !in free ==> Slack(items[i], alloc[i], residual > 0.0) == 0.0
    {
      PositionAfterPass(items, total, alloc0, residual, deltas, free0, alloc, progress, free, i);
    }
    if free != [] {
      forall k | 0 <= k < |free| ensures Weights(items)[free[k]] > 0.0 {
        assert free[k] in free;
        PositionAfterPass(items, total, alloc0, residual, deltas, free0, alloc, progress, free, free[k]);
      }
      PositiveSumAt(Weights(items), free);
    }
  }

  lemma PotentialDrops(items: seq<Item>, total: real, alloc0: seq<real>, residual: real, deltas: seq<real>, free0: seq<nat>, alloc: seq<real>, progress: real, free: seq<nat>)
    requires State(items, total, alloc0, residual, free0) && residual != 0.0 && Parts(items, residual, deltas, free0)
    requires PassSoFar(items, alloc0, deltas, free0, alloc, progress, free)
    requires residual - progress != 0.0
    ensures ValidFree(items, free)
    ensures Potential(Slacks(items, alloc, residual > 0.0), free) < Potential(Slacks(items, alloc0, residual > 0.0), free0)
  {
    var up := residual > 0.0;
    var slack0, slack := Slacks(items, alloc0, up), Slacks(items, alloc, up);
    KeepFacts(items, alloc0, residual, deltas, free0);
    MovableBounds(slack0, free0);
    MovableBounds(slack, free);
    var hit := ResidualShrinks(items, total, alloc0, residual, deltas, free0, alloc, progress, free);
    var i := free0[hit];
    if Movable(slack0, free0) == |free0| {
      PositionAfterPass(items, total, alloc0, residual, deltas, free0, alloc, progress, free, i);
      assert slack0[free0[hit]] > 0.0;
      assert i in free;
      var k :| 0 <= k < |free| && free[k] == i;
      assert slack[free[k]] == 0.0;
    }
  }

  // ---- The whole solver.

  ghost predicate ProportionalFits(total: real, items: seq<Item>)
    requires Sum(Weights(items)) != 0.0
  {
    forall i :: 0 <= i < |items| ==> items[i].low <= Share(total, items[i], Sum(Weights(items))) <= items[i].high
  }

  method ClampShares(total: real, items: seq<Item>) returns (alloc: seq<real>)
    requires ValidItems(items)
    ensures |alloc| == |items|
    ensures forall i :: 0 <= i < |items| ==>
      alloc[i] == Clamp(Share(total, items[i], Sum(Weights(items))), items[i].low, items[i].high)
  {
    var weightSum := 0.0;
    for i := 0 to |items|
      invariant weightSum == Sum(Weights(items)[..i])
    {
      SumAppend(Weights(items)[..i], Weights(items)[i]);
      assert Weights(items)[..i + 1] == Weights(items)[..i] + [Weights(items)[i]];
      weightSum := weightSum + items[i].weight;
    }
    assert Weights(items)[..|items|] == Weights(items);
    alloc := [];
    for i := 0 to |items|
      invariant |alloc| == i
      invariant forall k :: 0 <= k < i ==> alloc[k] == Clamp(Share(total, items[k], Sum(Weights(items))), items[k].low, items[k].high)
    {
      alloc := alloc + [Clamp(Share(total, items[i], weightSum), items[i].low, items[i].high)];
    }
  }

  ghost predicate Clamped(total: real, items: seq<Item>, alloc: seq<real>)
    requires ValidItems(items)
  {
    && |alloc| == |items|
    && forall i :: 0 <= i < |items| ==>
      alloc[i] == Clamp(Share(total, items[i], Sum(Weights(items))), items[i].low, items[i].high)
  }

  ghost function Shares(total: real, items: seq<Item>): (r: seq<real>)
    requires ValidItems(items)
    ensures |r| == |items|
    ensures forall i :: 0 <= i < |items| ==> r[i] == Share(total, items[i], Sum(Weights(items)))
  {
    seq(|items|, i requires 0 <= i < |items| => Share(total, items[i], Sum(Weights(items))))
  }

  lemma SharesAreQuotients(total: real, items: seq<Item>)
    requires ValidItems(items)
    ensures forall i :: 0 <= i < |items| ==> IsQuotient(Shares(total, items)[i], total, Weights(items)[i], Sum(Weights(items)))
  {
    forall i | 0 <= i < |items| ensures IsQuotient(Shares(total, items)[i], total, Weights(items)[i], Sum(Weights(items))) {
      QuotientIs(total, items[i].weight, Sum(Weights(items)));
    }
  }

  lemma SharesSumToTotal(total: real, items: seq<Item>)
    requires ValidItems(items)
    ensures Sum(Shares(total, items)) == total
  {
    SharesAreQuotients(total, items);
    ProportionsSum(Weights(items), Shares(total, items), total);
  }

  lemma ClampedInBounds(total: real, items: seq<Item>, alloc: seq<real>)
    requires ValidItems(items) && Clamped(total, items, alloc)
    ensures InBounds(items, alloc)
    ensures ProportionalFits(total, items) ==> Sum(alloc) == total
  {
    var w := Sum(Weights(items));
    forall i | 0 <= i < |items| ensures items[i].low <= alloc[i] <= Reach(items[i]) {
      QuotientIs(total, items[i].weight, w);
    }
    if ProportionalFits(total, items) {
      assert alloc == Shares(total, items);
      SharesSumToTotal(total, items);
    }
  }

  /** After clamping, a residual means that at least one strategy already sits on the bound in its way. */
  lemma SomebodyAtBound(total: real, items: seq<Item>, alloc: seq<real>, residual: real) returns (i: nat)
    requires ValidItems(items) && Clamped(total, items, alloc)
    requires residual == total - Sum(alloc) && residual != 0.0
    ensures i < |items| && Slack(items[i], alloc[i], residual > 0.0) <= 0.0
  {
    var shares := Shares(total, items);
    SharesSumToTotal(total, items);
    if residual > 0.0 {
      if forall k :: 0 <= k < |items| ==> shares[k] <= alloc[k] {
        SumMonotone(shares, alloc);
      }
      i :| 0 <= i < |items| && shares[i] > alloc[i];
    } else {
      if forall k :: 0 <= k < |items| ==> alloc[k] <= shares[k] {
        SumMonotone(alloc, shares);
      }
      i :| 0 <= i < |items| && shares[i] < alloc[i];
    }
  }

  lemma InitialState(total: real, items: seq<Item>, alloc: seq<real>, residual: real, free: seq<nat>)
    requires ValidItems(items) && Clamped(total, items, alloc) && residual == total - Sum(alloc)
    requires free == if residual != 0.0 then AllPositions(|items|) else []
    ensures State(items, total, alloc, residual, free)
    ensures residual != 0.0 ==> Potential(Slacks(items, alloc, residual > 0.0), free) <= 2 * (|items| - 1)
    ensures ProportionalFits(total, items) ==> residual == 0.0
  {
    ClampedInBounds(total, items, alloc);
    if residual != 0.0 {
      assert Weights(items)[..|items|] == Weights(items);
      SumAtPrefix(Weights(items), |items|);
      forall i | 0 <= i < |items| ensures i in free {
        assert free[i] == i;
      }
      var i := SomebodyAtBound(total, items, alloc, residual);
      var slack := Slacks(items, alloc, residual > 0.0);
      assert slack[free[i]] <= 0.0;
      MovableBounds(slack, free);
    }
  }

  /** What a pass starts from: the allocation, what is left to hand out, and who may take part. */
  datatype Round = Round(alloc: seq<real>, residual: real, free: seq<nat>)

  ghost predicate RoundOf(items: seq<Item>, r: Round) {
    |r.alloc| == |items| && ValidFree(items, r.free)
  }

  ghost function ClampedRound(total: real, items: seq<Item>): Round
    requires ValidItems(items)
  {
    var alloc := seq(|items|, i requires 0 <= i < |items| => Clamp(Share(total, items[i], Sum(Weights(items))), items[i].low, items[i].high));
    Round(alloc, total - Sum(alloc), if total - Sum(alloc) != 0.0 then AllPositions(|items|) else [])
  }

  /** A pass that offers every free item its delta. */
  ghost function HandOut(items: seq<Item>, r: Round, deltas: seq<real>): Round
    requires RoundOf(items, r) && |deltas| == |items|
  {
    var amounts := AppliedAmounts(items, r.alloc, deltas);
    Round(seq(|items|, i requires 0 <= i < |items| => r.alloc[i] + if i in r.free then amounts[i] else 0.0),
          r.residual - SumAt(amounts, r.free), Keep(items, r.alloc, deltas, r.free))
  }

  /** One pass as a function of the round: the residual is offered in proportion to the weights. */
  ghost function NextRound(items: seq<Item>, r: Round): Round
    requires RoundOf(items, r)
  {
    var w := SumAt(Weights(items), r.free);
    if w == 0.0 then r else HandOut(items, r, Deltas(items, r.residual, w))
  }

  /** At most `passes` passes, ending early when nothing is left or nobody is free. */
  ghost function Passes(items: seq<Item>, r: Round, passes: nat): Round
    requires RoundOf(items, r)
    decreases passes
  {
    if passes == 0 || r.residual == 0.0 || r.free == [] || !RoundOf(items, NextRound(items, r)) then r
    else Passes(items, NextRound(items, r), passes - 1)
  }

  lemma PassHandsOut(items: seq<Item>, r: Round, deltas: seq<real>, alloc: seq<real>, progress: real, free: seq<nat>)
    requires RoundOf(items, r) && |deltas| == |items| && PassSoFar(items, r.alloc, deltas, r.free, alloc, progress, free)
    ensures HandOut(items, r, deltas) == Round(alloc, r.residual - progress, free)
  {
    assert HandOut(items, r, deltas).alloc == alloc;
  }

  lemma PassesNext(items: seq<Item>, r: Round, next: Round, passes: nat)
    requires RoundOf(items, r) && RoundOf(items, next) && NextRound(items, r) == next && r.residual != 0.0 && r.free != [] && passes > 0
    ensures Passes(items, r, passes) == Passes(items, next, passes - 1)
  {
  }

  lemma FittingIsClamped(total: real, items: seq<Item>, alloc: seq<real>)
    requires ValidItems(items) && Clamped(total, items, alloc)
    ensures ProportionalFits(total, items) ==> alloc == Shares(total, items)
  {
  }

  /** The passes on the way to `goal`, the round they end in. */
  ghost predicate Underway(items: seq<Item>, total: real, goal: Round, passes: nat, pass: nat, alloc: seq<real>, residual: real, free: seq<nat>)
    requires pass <= passes
  {
    && State(items, total, alloc, residual, free)
    && Passes(items, Round(alloc, residual, free), passes - pass) == goal
    && (residual != 0.0 ==> Potential(Slacks(items, alloc, residual > 0.0), free) <= 2 * (|items| - 1) - pass)
  }

  lemma StepFurther(items: seq<Item>, total: real, alloc0: seq<real>, residual: real, deltas: seq<real>, free0: seq<nat>,
                    alloc: seq<real>, progress: real, free: seq<nat>, bound: int)
    requires State(items, total, alloc0, residual, free0) && residual != 0.0 && Parts(items, residual, deltas, free0)
    requires PassSoFar(items, alloc0, deltas, free0, alloc, progress, free)
    requires Potential(Slacks(items, alloc0, residual > 0.0), free0) <= bound
    ensures State(items, total, alloc, residual - progress, free)
    ensures residual - progress != 0.0 ==> Potential(Slacks(items, alloc, residual - progress > 0.0), free) <= bound - 1
  {
    StateAfterPass(items, total, alloc0, residual, deltas, free0, alloc, progress, free);
    if residual - progress != 0.0 {
      PotentialDrops(items, total, alloc0, residual, deltas, free0, alloc, progress, free);
      var hit := ResidualShrinks(items, total, alloc0, residual, deltas, free0, alloc, progress, free);
    }
  }

  lemma UnderwayStep(items: seq<Item>, total: real, goal: Round, passes: nat, pass: nat, alloc0: seq<real>, residual: real, free0: seq<nat>,
                     alloc: seq<real>, progress: real, free: seq<nat>)
    requires pass < passes && Underway(items, total, goal, passes, pass, alloc0, residual, free0) && residual != 0.0 && free0 != []
    requires PassSoFar(items, alloc0, Deltas(items, residual, SumAt(Weights(items), free0)), free0, alloc, progress, free)
    ensures Underway(items, total, goal, passes, pass + 1, alloc, residual - progress, free)
  {
    var r, deltas := Round(alloc0, residual, free0), Deltas(items, residual, SumAt(Weights(items), free0));
    DeltasAreParts(items, residual, free0);
    StepFurther(items, total, alloc0, residual, deltas, free0, alloc, progress, free, 2 * (|items| - 1) - pass);
    PassHandsOut(items, r, deltas, alloc, progress, free);
    PassesNext(items, r, Round(alloc, residual - progress, free), passes - pass);
  }

  /** Where `RunPasses` starts. */
  lemma ClampedStart(items: seq<Item>, total: real, passes: nat, alloc: seq<real>, residual: real, free: seq<nat>)
    requires ValidItems(items) && Clamped(total, items, alloc) && residual == total - Sum(alloc)
    requires free == if residual != 0.0 then AllPositions(|items|) else []
    ensures Underway(items, total, Passes(items, ClampedRound(total, items), passes), passes, 0, alloc, residual, free)
  {
    InitialState(total, items, alloc, residual, free);
    assert ClampedRound(total, items).alloc == alloc;
  }

  lemma PassesStop(items: seq<Item>, r: Round, passes: nat)
    requires RoundOf(items, r) && (passes == 0 || r.residual == 0.0 || r.free == [])
    ensures Passes(items, r, passes) == r
  {
  }

  /** Proportional shares that fit leave nothing for any pass to do. */
  lemma FittingPasses(items: seq<Item>, total: real, passes: nat)
    requires ValidItems(items)
    ensures ProportionalFits(total, items) ==>
      var r := Passes(items, ClampedRound(total, items), passes); r.residual == 0.0 && r.alloc == Shares(total, items)
  {
    var start := ClampedRound(total, items);
    FittingIsClamped(total, items, start.alloc);
    ClampedInBounds(total, items, start.alloc);
    if ProportionalFits(total, items) {
      PassesStop(items, start, passes);
    }
  }

  /** What is known where it ends. */
  lemma UnderwayEnds(items: seq<Item>, total: real, goal: Round, passes: nat, pass: nat, alloc: seq<real>, residual: real, free: seq<nat>)
    requires pass <= passes && Underway(items, total, goal, passes, pass, alloc, residual, free)
    requires residual == 0.0 || free == [] || pass == passes
    ensures InBounds(items, alloc) && residual == total - Sum(alloc)
    ensures residual == 0.0 ==> Feasible(total, items)
    ensures passes >= 2 * (|items| - 1) && Feasible(total, items) ==> residual == 0.0
    ensures goal == Round(alloc, residual, free)
  {
    PassesStop(items, Round(alloc, residual, free), passes - pass);
    if residual != 0.0 && Feasible(total, items) {
      ResidualNeedsSlack(items, total, alloc, residual, free);
    }
    if residual == 0.0 {
      SumMonotone(Lows(items), alloc);
      SumMonotone(alloc, Reaches(items));
    }
  }

  /**
   * The passes from the clamped shares. A feasible total is handed out completely after twice as many passes as there
   * are items besides the first, whatever their number.
   */
  method RunPasses(total: real, items: seq<Item>, passes: nat) returns (alloc: seq<real>, residual: real)
    requires items != [] && ValidItems(items)
    ensures alloc == Passes(items, ClampedRound(total, items), passes).alloc
    ensures residual == Passes(items, ClampedRound(total, items), passes).residual
    ensures InBounds(items, alloc) && residual == total - Sum(alloc)
    ensures passes >= 2 * (|items| - 1) ==> (residual == 0.0 <==> Feasible(total, items))
    ensures residual == 0.0 ==> Feasible(total, items)
    ensures ProportionalFits(total, items) ==> residual == 0.0 && alloc == Shares(total, items)
  {
    alloc := ClampShares(total, items);
    var granted := SumOf(alloc);
    residual := total - granted;
    var free: seq<nat> := if residual != 0.0 then seq(|items|, i => i) else [];
    assert residual != 0.0 ==> free == AllPositions(|items|);
    ClampedStart(items, total, passes, alloc, residual, free);
    FittingPasses(items, total, passes);
    alloc, residual := PassLoop(items, total, passes, Passes(items, ClampedRound(total, items), passes), alloc, residual, free);
  }

  method NextPass(items: seq<Item>, ghost total: real, ghost passes: nat, ghost pass: nat, ghost goal: Round,
                  alloc0: seq<real>, residual0: real, free0: seq<nat>)
    returns (alloc: seq<real>, residual: real, free: seq<nat>)
    requires pass < passes && Underway(items, total, goal, passes, pass, alloc0, residual0, free0) && residual0 != 0.0 && free0 != []
    ensures Underway(items, total, goal, passes, pass + 1, alloc, residual, free)
  {
    var progress;
    alloc, progress, free := Pass(items, alloc0, residual0, free0);
    UnderwayStep(items, total, goal, passes, pass, alloc0, residual0, free0, alloc, progress, free);
    residual := residual0 - progress;
  }

  method PassLoop(items: seq<Item>, total: real, passes: nat, ghost goal: Round, alloc0: seq<real>, residual0: real, free0: seq<nat>)
    returns (alloc: seq<real>, residual: real)
    requires Underway(items, total, goal, passes, 0, alloc0, residual0, free0)
    ensures alloc == goal.alloc && residual == goal.residual
    ensures InBounds(items, alloc) && residual == total - Sum(alloc)
    ensures passes >= 2 * (|items| - 1) && Feasible(total, items) ==> residual == 0.0
    ensures residual == 0.0 ==> Feasible(total, items)
  {
    var free := free0;
    alloc, residual := alloc0, residual0;
    for pass := 0 to passes
      invariant Underway(items, total, goal, passes, pass, alloc, residual, free)
    {
      if residual == 0.0 || free == [] {
        UnderwayEnds(items, total, goal, passes, pass, alloc, residual, free);
        return;
      }
      alloc, residual, free := NextPass(items, total, passes, pass, goal, alloc, residual, free);
    }
    UnderwayEnds(items, total, goal, passes, passes, alloc, residual, free);
  }

  /**
   * `None` is the "failed to converge" error. With two or three strategies the `len + 1` passes
   * succeed exactly on the feasible totals; in general they do when they are enough.
   */
  method BoundedProportional(total: real, items: seq<Item>) returns (r: Option<seq<real>>)
    requires items != [] ==> ValidItems(items)
    ensures r.Some? ==>
      && |r.value| == |items|
      && (forall i :: 0 <= i < |items| ==> items[i].low <= r.value[i] <= Reach(items[i]))
    ensures items != [] ==>
      (r.Some? <==> Passes(items, ClampedRound(total, items), |items| + 1).residual == 0.0)
    ensures r.Some? && items != [] ==> Sum(r.value) == total && Feasible(total, items)
    ensures items != [] && |items| <= 3 ==> (r.Some? <==> Feasible(total, items))
    ensures items != [] && ProportionalFits(total, items) ==>
      r.Some? && forall i :: 0 <= i < |items| ==> r.value[i] == Share(total, items[i], Sum(Weights(items)))
  {
    if items == [] {
      return Some([]);
    }
    var alloc, residual := RunPasses(total, items, |items| + 1);
    return if residual == 0.0 then Some(alloc) else None;
  }

  // ---- Four items can need six passes.

  /** Weights 1, 4, 1, 4 with upper bounds 32, 12, 88, 100. */
  function FourItems(): seq<Item> {
    [Item(1.0, 0.0, 32.0), Item(4.0, 0.0, 12.0), Item(1.0, 0.0, 88.0), Item(4.0, 0.0, 100.0)]
  }

  lemma FourItemsValid()
    ensures ValidItems(FourItems()) && Sum(Weights(FourItems())) == 10.0 && Feasible(180.0, FourItems())
  {
    var items := FourItems();
    assert Weights(items) == [1.0, 4.0, 1.0, 4.0];
    assert Lows(items) == [0.0, 0.0, 0.0, 0.0];
    assert Reaches(items) == [32.0, 12.0, 88.0, 100.0];
    SumOfFour(1.0, 4.0, 1.0, 4.0);
    SumOfFour(0.0, 0.0, 0.0, 0.0);
    SumOfFour(32.0, 12.0, 88.0, 100.0);
  }

  lemma SumFirst(x: real, rest: seq<real>)
    ensures Sum([x] + rest) == x + Sum(rest)
  {
    assert ([x] + rest)[1..] == rest;
  }

  lemma SumOfFour(a: real, b: real, c: real, d: real)
    ensures Sum([a, b, c, d]) == a + b + c + d
  {
    SumFirst(d, []);
    SumFirst(c, [d]);
    SumFirst(b, [c, d]);
    SumFirst(a, [b, c, d]);
    assert [d] + [] == [d] && [c] + [d] == [c, d] && [b] + [c, d] == [b, c, d] && [a] + [b, c, d] == [a, b, c, d];
  }

  /** The rounds they go through. */
  function FourRound(k: nat): Round {
    match k
    case 0 => Round([18.0, 12.0, 18.0, 72.0], 60.0, [0, 1, 2, 3])
    case 1 => Round([24.0, 12.0, 24.0, 96.0], 24.0, [0, 2, 3])
    case 2 => Round([28.0, 12.0, 28.0, 100.0], 12.0, [0, 2, 3])
    case 3 => Round([30.0, 12.0, 30.0, 100.0], 8.0, [0, 2])
    case 4 => Round([32.0, 12.0, 34.0, 100.0], 2.0, [0, 2])
    case 5 => Round([32.0, 12.0, 35.0, 100.0], 1.0, [2])
    case _ => Round([32.0, 12.0, 36.0, 100.0], 0.0, [2])
  }

  /** What is offered and what is taken in each of them, and the weight of those still free. */
  function FourDeltas(k: nat): (r: seq<real>)
    ensures |r| == 4
  {
    match k
    case 0 => [6.0, 24.0, 6.0, 24.0]
    case 1 => [4.0, 16.0, 4.0, 16.0]
    case 2 => [2.0, 8.0, 2.0, 8.0]
    case 3 => [4.0, 16.0, 4.0, 16.0]
    case 4 => [1.0, 4.0, 1.0, 4.0]
    case _ => [1.0, 4.0, 1.0, 4.0]
  }

  function FourAmounts(k: nat): (r: seq<real>)
    ensures |r| == 4
  {
    match k
    case 0 => [6.0, 0.0, 6.0, 24.0]
    case 1 => [4.0, 0.0, 4.0, 4.0]
    case 2 => [2.0, 0.0, 2.0, 0.0]
    case 3 => [2.0, 0.0, 4.0, 0.0]
    case 4 => [0.0, 0.0, 1.0, 0.0]
    case _ => [0.0, 0.0, 1.0, 0.0]
  }

  function FourWeight(k: nat): real {
    match k
    case 0 => 10.0
    case 1 => 6.0
    case 2 => 6.0
    case 3 => 2.0
    case 4 => 2.0
    case _ => 1.0
  }

  lemma FourItemsStart()
    ensures ValidItems(FourItems()) && ClampedRound(180.0, FourItems()) == FourRound(0)
  {
    FourItemsValid();
    var items := FourItems();
    assert ClampedRound(180.0, items).alloc == [18.0, 12.0, 18.0, 72.0];
    SumOfFour(18.0, 12.0, 18.0, 72.0);
    assert AllPositions(4) == [0, 1, 2, 3];
  }

  // `SumAt` and `Keep` on short lists.

  lemma SumAtOne(v: seq<real>, a: nat)
    requires a < |v|
    ensures SumAt(v, [a]) == v[a]
  {
    var none: seq<nat> := [];
    SumAtNext(v, none, a);
    assert none + [a] == [a];
  }

  lemma SumAtTwo(v: seq<real>, a: nat, b: nat)
    requires a < |v| && b < |v|
    ensures SumAt(v, [a, b]) == v[a] + v[b]
  {
    SumAtOne(v, a);
    SumAtNext(v, [a], b);
    assert [a] + [b] == [a, b];
  }

  lemma SumAtThree(v: seq<real>, a: nat, b: nat, c: nat)
    requires a < |v| && b < |v| && c < |v|
    ensures SumAt(v, [a, b, c]) == v[a] + v[b] + v[c]
  {
    SumAtTwo(v, a, b);
    SumAtNext(v, [a, b], c);
    assert [a, b] + [c] == [a, b, c];
  }

  lemma SumAtFour(v: seq<real>, a: nat, b: nat, c: nat, d: nat)
    requires a < |v| && b < |v| && c < |v| && d < |v|
    ensures SumAt(v, [a, b, c, d]) == v[a] + v[b] + v[c] + v[d]
  {
    SumAtThree(v, a, b, c);
    SumAtNext(v, [a, b, c], d);
    assert [a, b, c] + [d] == [a, b, c, d];
  }

  predicate Stays(items: seq<Item>, alloc: seq<real>, deltas: seq<real>, i: nat)
    requires |alloc| == |items| == |deltas| && i < |items|
  {
    StaysFree(items[i], alloc[i], deltas[i])
  }

  lemma KeepOne(items: seq<Item>, alloc: seq<real>, deltas: seq<real>, a: nat)
    requires |alloc| == |items| == |deltas| && a < |items|
    ensures Keep(items, alloc, deltas, [a]) == WithItem([], a, Stays(items, alloc, deltas, a))
  {
    var none: seq<nat> := [];
    KeepNext(items, alloc, deltas, none, a);
    assert none + [a] == [a];
  }

  lemma KeepTwo(items: seq<Item>, alloc: seq<real>, deltas: seq<real>, a: nat, b: nat)
    requires |alloc| == |items| == |deltas| && a < |items| && b < |items|
    ensures Keep(items, alloc, deltas, [a, b]) == WithItem(Keep(items, alloc, deltas, [a]), b, Stays(items, alloc, deltas, b))
  {
    KeepNext(items, alloc, deltas, [a], b);
    assert [a] + [b] == [a, b];
  }

  lemma KeepThree(items: seq<Item>, alloc: seq<real>, deltas: seq<real>, a: nat, b: nat, c: nat)
    requires |alloc| == |items| == |deltas| && a < |items| && b < |items| && c < |items|
    ensures Keep(items, alloc, deltas, [a, b, c]) == WithItem(Keep(items, alloc, deltas, [a, b]), c, Stays(items, alloc, deltas, c))
  {
    KeepNext(items, alloc, deltas, [a, b], c);
    assert [a, b] + [c] == [a, b, c];
  }

  lemma KeepFour(items: seq<Item>, alloc: seq<real>, deltas: seq<real>, a: nat, b: nat, c: nat, d: nat)
    requires |alloc| == |items| == |deltas| && a < |items| && b < |items| && c < |items| && d < |items|
    ensures Keep(items, alloc, deltas, [a, b, c, d]) == WithItem(Keep(items, alloc, deltas, [a, b, c]), d, Stays(items, alloc, deltas, d))
  {
    KeepNext(items, alloc, deltas, [a, b, c], d);
    assert [a, b, c] + [d] == [a, b, c, d];
  }

  /** Who stays free in the rounds above. */
  lemma FourStay(k: nat, i: nat)
    requires k < 6 && i < 4
    ensures Stays(FourItems(), FourRound(k).alloc, FourDeltas(k), i) <==>
      (i == 0 && k < 4) || i == 2 || (i == 3 && k < 2)
  {
  }

  /** A pass with these deltas and amounts takes one round to the other. */
  ghost predicate Takes(items: seq<Item>, r: Round, deltas: seq<real>, amounts: seq<real>, next: Round)
    requires RoundOf(items, r) && |items| == |deltas| == |amounts|
  {
    && |next.alloc| == |items|
    && (forall i: nat {:trigger amounts[i]} :: i < |items| ==>
          amounts[i] == Applied(items[i], r.alloc[i], deltas[i]) && next.alloc[i] == r.alloc[i] + if i in r.free then amounts[i] else 0.0)
    && next.residual == r.residual - SumAt(amounts, r.free)
    && next.free == Keep(items, r.alloc, deltas, r.free)
  }

  lemma TakenByHandOut(items: seq<Item>, r: Round, deltas: seq<real>, amounts: seq<real>, next: Round)
    requires RoundOf(items, r) && |items| == |deltas| == |amounts| && Takes(items, r, deltas, amounts, next)
    ensures HandOut(items, r, deltas) == next
  {
    var applied := AppliedAmounts(items, r.alloc, deltas);
    forall i: nat | i < |items| ensures applied[i] == amounts[i] {
    }
    assert applied == amounts;
    var alloc := HandOut(items, r, deltas).alloc;
    forall i: nat | i < |items| ensures alloc[i] == next.alloc[i] {
      assert amounts[i] == applied[i];
    }
    assert alloc == next.alloc;
  }

  lemma FourTakesAt(k: nat, i: nat)
    requires k < 6 && i < 4
    ensures FourAmounts(k)[i] == Applied(FourItems()[i], FourRound(k).alloc[i], FourDeltas(k)[i])
    ensures FourRound(k + 1).alloc[i] == FourRound(k).alloc[i] + if i in FourRound(k).free then FourAmounts(k)[i] else 0.0
  {
  }

  lemma SumAtLists(v: seq<real>)
    requires |v| == 4
    ensures SumAt(v, [0, 1, 2, 3]) == v[0] + v[1] + v[2] + v[3] && SumAt(v, [0, 2, 3]) == v[0] + v[2] + v[3]
    ensures SumAt(v, [0, 2]) == v[0] + v[2] && SumAt(v, [2]) == v[2]
  {
    SumAtFour(v, 0, 1, 2, 3);
    SumAtThree(v, 0, 2, 3);
    SumAtTwo(v, 0, 2);
    SumAtOne(v, 2);
  }

  lemma FourSums(k: nat)
    requires k < 6
    ensures RoundOf(FourItems(), FourRound(k))
    ensures SumAt(FourAmounts(k), FourRound(k).free) == FourRound(k).residual - FourRound(k + 1).residual
  {
    SumAtLists(FourAmounts(k));
  }

  lemma FourWeights(k: nat)
    requires k < 6
    ensures RoundOf(FourItems(), FourRound(k)) && SumAt(Weights(FourItems()), FourRound(k).free) == FourWeight(k)
  {
    assert Weights(FourItems()) == [1.0, 4.0, 1.0, 4.0];
    SumAtLists(Weights(FourItems()));
  }

  /** The lists of those who stay when item 2 does and item 1 does not. */
  function Remaining(zero: bool, three: bool): seq<nat> {
    if zero then if three then [0, 2, 3] else [0, 2] else if three then [2, 3] else [2]
  }

  lemma KeepLists(items: seq<Item>, alloc: seq<real>, deltas: seq<real>)
    requires |alloc| == |items| == |deltas| == 4
    requires !Stays(items, alloc, deltas, 1) && Stays(items, alloc, deltas, 2)
    ensures var zero, three := Stays(items, alloc, deltas, 0), Stays(items, alloc, deltas, 3);
      && Keep(items, alloc, deltas, [0, 1, 2, 3]) == Keep(items, alloc, deltas, [0, 2, 3]) == Remaining(zero, three)
      && Keep(items, alloc, deltas, [0, 2]) == Remaining(zero, false)
      && Keep(items, alloc, deltas, [2]) == Remaining(false, false)
  {
    KeepOne(items, alloc, deltas, 0);
    KeepTwo(items, alloc, deltas, 0, 1);
    KeepThree(items, alloc, deltas, 0, 1, 2);
    KeepFour(items, alloc, deltas, 0, 1, 2, 3);
    KeepTwo(items, alloc, deltas, 0, 2);
    KeepThree(items, alloc, deltas, 0, 2, 3);
    KeepOne(items, alloc, deltas, 2);
  }

  /** The free items of a round and of the next, given who stays. */
  lemma KeepOfRound(items: seq<Item>, r: Round, deltas: seq<real>, next: seq<nat>)
    requires RoundOf(items, r) && |items| == |deltas| == 4 && !Stays(items, r.alloc, deltas, 1) && Stays(items, r.alloc, deltas, 2)
    requires var zero, three := Stays(items, r.alloc, deltas, 0), Stays(items, r.alloc, deltas, 3);
      || ((r.free == [0, 1, 2, 3] || r.free == [0, 2, 3]) && next == Remaining(zero, three))
      || (r.free == [0, 2] && next == Remaining(zero, false))
      || (r.free == [2] && next == Remaining(false, false))
    ensures Keep(items, r.alloc, deltas, r.free) == next
  {
    KeepLists(items, r.alloc, deltas);
  }

  lemma FourKeep(k: nat)
    requires k < 6
    ensures RoundOf(FourItems(), FourRound(k))
    ensures FourRound(k + 1).free == Keep(FourItems(), FourRound(k).alloc, FourDeltas(k), FourRound(k).free)
  {
    FourStay(k, 0);
    FourStay(k, 1);
    FourStay(k, 2);
    FourStay(k, 3);
    KeepOfRound(FourItems(), FourRound(k), FourDeltas(k), FourRound(k + 1).free);
  }

  lemma FourTakes(k: nat)
    requires k < 6
    ensures RoundOf(FourItems(), FourRound(k))
    ensures Takes(FourItems(), FourRound(k), FourDeltas(k), FourAmounts(k), FourRound(k + 1))
  {
    FourSums(k);
    FourKeep(k);
    forall i: nat | i < 4
      ensures FourAmounts(k)[i] == Applied(FourItems()[i], FourRound(k).alloc[i], FourDeltas(k)[i])
      ensures FourRound(k + 1).alloc[i] == FourRound(k).alloc[i] + if i in FourRound(k).free then FourAmounts(k)[i] else 0.0
    {
      FourTakesAt(k, i);
    }
  }

  lemma FourDeltasAre(k: nat)
    requires k < 6
    ensures Deltas(FourItems(), FourRound(k).residual, FourWeight(k)) == FourDeltas(k)
  {
  }

  /** One round leads to the next. */
  ghost predicate LeadsTo(items: seq<Item>, r: Round, next: Round) {
    RoundOf(items, r) && RoundOf(items, next) && r.residual != 0.0 && r.free != [] && NextRound(items, r) == next
  }

  lemma LeadsByHandOut(items: seq<Item>, r: Round, w: real, deltas: seq<real>, next: Round)
    requires RoundOf(items, r) && RoundOf(items, next) && r.residual != 0.0 && r.free != []
    requires w != 0.0 && SumAt(Weights(items), r.free) == w && Deltas(items, r.residual, w) == deltas && HandOut(items, r, deltas) == next
    ensures LeadsTo(items, r, next)
  {
  }

  lemma FourRoundOf(k: nat)
    requires k <= 6
    ensures RoundOf(FourItems(), FourRound(k)) && FourRound(k).free != [] && (k < 6 ==> FourRound(k).residual != 0.0)
  {
  }

  lemma FourHandsOut(k: nat)
    requires k < 6
    ensures RoundOf(FourItems(), FourRound(k)) && HandOut(FourItems(), FourRound(k), FourDeltas(k)) == FourRound(k + 1)
  {
    FourTakes(k);
    TakenByHandOut(FourItems(), FourRound(k), FourDeltas(k), FourAmounts(k), FourRound(k + 1));
  }

  lemma FourPass(k: nat)
    requires k < 6
    ensures LeadsTo(FourItems(), FourRound(k), FourRound(k + 1))
  {
    FourRoundOf(k);
    FourRoundOf(k + 1);
    FourWeights(k);
    FourDeltasAre(k);
    FourHandsOut(k);
    LeadsByHandOut(FourItems(), FourRound(k), FourWeight(k), FourDeltas(k), FourRound(k + 1));
  }

  lemma {:induction false} RoundsPass(items: seq<Item>, round: nat -> Round, n: nat, k: nat)
    requires RoundOf(items, round(0)) && k <= n
    requires forall i: nat :: i < k ==> LeadsTo(items, round(i), round(i + 1))
    ensures RoundOf(items, round(k)) && Passes(items, round(0), n) == Passes(items, round(k), n - k)
  {
    if k > 0 {
      RoundsPass(items, round, n, k - 1);
      assert LeadsTo(items, round(k - 1), round(k - 1 + 1));
      PassesNext(items, round(k - 1), round(k), n - k + 1);
    }
  }

  lemma RoundsFrom(items: seq<Item>, start: Round, round: nat -> Round, n: nat)
    requires RoundOf(items, start) && start == round(0)
    requires forall i: nat :: i < n ==> LeadsTo(items, round(i), round(i + 1))
    ensures Passes(items, start, n) == round(n)
  {
    RoundsPass(items, round, n, n);
  }

  lemma FourItemsPass(passes: nat)
    requires passes <= 6
    ensures ValidItems(FourItems()) && Passes(FourItems(), ClampedRound(180.0, FourItems()), passes) == FourRound(passes)
  {
    FourItemsStart();
    forall i: nat | i < passes ensures LeadsTo(FourItems(), FourRound(i), FourRound(i + 1)) {
      FourPass(i);
    }
    RoundsFrom(FourItems(), ClampedRound(180.0, FourItems()), FourRound, passes);
  }

  /** The bound on the passes is met: this feasible total of 180 is not handed out by the five passes four items get, but by a sixth. */
  lemma FourItemsNeedSixPasses(passes: nat)
    requires |FourItems()| + 1 <= passes <= 6
    ensures ValidItems(FourItems()) && Feasible(180.0, FourItems())
    ensures Passes(FourItems(), ClampedRound(180.0, FourItems()), passes).residual == if passes == |FourItems()| + 1 then 1.0 else 0.0
  {
    FourItemsValid();
    FourItemsPass(passes);
    FourResidual(passes);
  }

  lemma FourResidual(k: nat)
    requires 5 <= k <= 6
    ensures FourRound(k).residual == if k == 5 then 1.0 else 0.0
  {
  }

  method SumOf(s: seq<real>) returns (r: real)
    ensures r == Sum(s)
  {
    r := 0.0;
    for i := 0 to |s|
      invariant r == Sum(s[..i])
    {
      SumAppend(s[..i], s[i]);
      assert s[..i + 1] == s[..i] + [s[i]];
      r := r + s[i];
    }
    assert s[..|s|] == s;
  }
}

/** The five generation strategies in declaration order, and their two groups. */
module Strategies {
  import opened RealSums

  datatype Strategy = Mutate | Crossover | ParameterPerturb | RandomExplore | LlmMechanism

  const DECLARED: seq<Strategy> := [Mutate, Crossover, ParameterPerturb, RandomExplore, LlmMechanism]
  const EXPLORATION: seq<Strategy> := [RandomExplore, LlmMechanism]
  const EXPLOITATION: seq<Strategy> := [Mutate, Crossover, ParameterPerturb]

  /** A dictionary with one entry per strategy. */
  datatype PerStrategy<T> = PerStrategy(mutate: T, crossover: T, perturb: T, random: T, llm: T) {
    function At(s: Strategy): T {
      match s
      case Mutate => mutate
      case Crossover => crossover
      case ParameterPerturb => perturb
      case RandomExplore => random
      case LlmMechanism => llm
    }
  }

  function Along<T>(m: PerStrategy<T>, group: seq<Strategy>): (r: seq<T>)
    ensures |r| == |group|
    ensures forall i :: 0 <= i < |group| ==> r[i] == m.At(group[i])
  {
    seq(|group|, i requires 0 <= i < |group| => m.At(group[i]))
  }

  function GroupSum(m: PerStrategy<real>, group: seq<Strategy>): real {
    Sum(Along(m, group))
  }

  lemma GroupSums(m: PerStrategy<real>)
    ensures GroupSum(m, EXPLORATION) == m.random + m.llm
    ensures GroupSum(m, EXPLOITATION) == m.mutate + m.crossover + m.perturb
  {
    assert Along(m, EXPLORATION) == [m.random, m.llm];
    assert Along(m, EXPLOITATION) == [m.mutate, m.crossover, m.perturb];
    SumOfTwo(m.random, m.llm);
    SumOfThree(m.mutate, m.crossover, m.perturb);
  }

  lemma SumOfTwo(x: real, y: real)
    ensures Sum([x, y]) == x + y
  {
    assert [x, y][1..] == [y];
    assert Sum([y]) == y;
  }

  lemma SumOfThree(x: real, y: real, z: real)
    ensures Sum([x, y, z]) == x + y + z
  {
    assert [x, y, z][1..] == [y, z];
    SumOfTwo(y, z);
  }
}

module FactorAdaptation {
  import opened Wrappers
  import opened RealSums
  import opened RealArithmetic
  import opened QuotaSolver
  import opened Strategies

  datatype Policy = Policy(
    minRatios: PerStrategy<real>, maxRatios: PerStrategy<real>, maxAdjustStep: real,
    minShare: real, maxShare: real, momentumAlpha: real, exploitationThreshold: real,
    duplicateThreshold: real, duplicateShift: real, stagnationRounds: int,
    minWindowStep: int, maxWindowStep: int, tiltSensitivity: real)
  {
    /** The checks of `ExplorationPolicy.__post_init__`. */
    ghost predicate Valid() {
      && (forall s: Strategy :: 0.0 <= minRatios.At(s) <= maxRatios.At(s) <= 1.0)
      && GroupSum(minRatios, EXPLORATION) + GroupSum(minRatios, EXPLOITATION) <= 1.0
      && 1.0 <= GroupSum(maxRatios, EXPLORATION) + GroupSum(maxRatios, EXPLOITATION)
      && GroupSum(minRatios, EXPLORATION) <= minShare <= maxShare <= GroupSum(maxRatios, EXPLORATION)
      && GroupSum(minRatios, EXPLOITATION) <= 1.0 - maxShare
      && 1.0 - minShare <= GroupSum(maxRatios, EXPLOITATION)
      && 0.0 < momentumAlpha <= 1.0
      && maxAdjustStep > 0.0 && duplicateShift >= 0.0
      && 0.0 <= exploitationThreshold <= 1.0
      && 0.0 <= duplicateThreshold <= 1.0
      && stagnationRounds >= 1
      && 1 <= minWindowStep <= maxWindowStep
      && 0.0 < tiltSensitivity <= 1.0
    }
  }

  /** Counts per strategy; a strategy the source leaves out of its dictionaries has count 0 here. */
  datatype Feedback = Feedback(tested: PerStrategy<int>, accepted: PerStrategy<int>, duplicates: int, generated: int) {
    ghost predicate Valid() {
      && (forall s: Strategy :: 0 <= accepted.At(s) <= tested.At(s))
      && 0 <= duplicates <= generated
    }

    function TotalTested(): int {
      tested.mutate + tested.crossover + tested.perturb + tested.random + tested.llm
    }

    function TotalAccepted(): int {
      accepted.mutate + accepted.crossover + accepted.perturb + accepted.random + accepted.llm
    }

    function DuplicateRate(): real {
      if generated == 0 then 0.0 else duplicates as real / generated as real
    }

    function Score(s: Strategy): real
      requires tested.At(s) > 0
    {
      accepted.At(s) as real / tested.At(s) as real
    }
  }

  // ---- Group weights.

  function Observed(group: seq<Strategy>, fb: Feedback): (r: seq<Strategy>)
    ensures forall s :: s in r <==> s in group && fb.tested.At(s) > 0
  {
    if group == [] then []
    else if fb.tested.At(group[0]) > 0 then [group[0]] + Observed(group[1..], fb)
    else Observed(group[1..], fb)
  }

  function ScoreSum(observed: seq<Strategy>, fb: Feedback): real
    requires forall s :: s in observed ==> fb.tested.At(s) > 0
  {
    if observed == [] then 0.0 else fb.Score(observed[0]) + ScoreSum(observed[1..], fb)
  }

  /** The mean score of the strategies of a group that were tested, if any was. */
  function MeanScore(group: seq<Strategy>, fb: Feedback): Option<real> {
    if Observed(group, fb) == [] then None
    else Some(ScoreSum(Observed(group, fb), fb) / |Observed(group, fb)| as real)
  }

  function Tilted(weight: real, sensitivity: real, gap: real): real {
    weight * (1.0 + sensitivity * gap)
  }

  function Adjusted(weight: real, fb: Feedback, sensitivity: real, mean: real, s: Strategy): real {
    if fb.tested.At(s) > 0 then Tilted(weight, sensitivity, fb.Score(s) - mean) else weight
  }

  function AdjustedGroup(weights: PerStrategy<real>, fb: Feedback, sensitivity: real, mean: real, group: seq<Strategy>): (r: seq<real>)
    ensures |r| == |group|
    ensures forall i :: 0 <= i < |group| ==> r[i] == Adjusted(weights.At(group[i]), fb, sensitivity, mean, group[i])
  {
    seq(|group|, i requires 0 <= i < |group| => Adjusted(weights.At(group[i]), fb, sensitivity, mean, group[i]))
  }

  function TiltedWeight(weights: PerStrategy<real>, fb: Feedback, sensitivity: real, mean: Option<real>, group: seq<Strategy>, s: Strategy): real {
    if mean.None? then weights.At(s)
    else
      var total := Sum(AdjustedGroup(weights, fb, sensitivity, mean.value, group));
      if total <= 0.0 then weights.At(s)
      else Adjusted(weights.At(s), fb, sensitivity, mean.value, s) / total
  }

  /** `_tilt_group_weights`, given the mean scores of the two groups. */
  function TiltByMeans(weights: PerStrategy<real>, fb: Feedback, sensitivity: real, explore: Option<real>, exploit: Option<real>): PerStrategy<real> {
    PerStrategy(
      TiltedWeight(weights, fb, sensitivity, exploit, EXPLOITATION, Mutate),
      TiltedWeight(weights, fb, sensitivity, exploit, EXPLOITATION, Crossover),
      TiltedWeight(weights, fb, sensitivity, exploit, EXPLOITATION, ParameterPerturb),
      TiltedWeight(weights, fb, sensitivity, explore, EXPLORATION, RandomExplore),
      TiltedWeight(weights, fb, sensitivity, explore, EXPLORATION, LlmMechanism))
  }

  function TiltGroupWeights(weights: PerStrategy<real>, fb: Feedback, sensitivity: real): PerStrategy<real> {
    TiltByMeans(weights, fb, sensitivity, MeanScore(EXPLORATION, fb), MeanScore(EXPLOITATION, fb))
  }

  /** Weights adding up to 1 inside each group. */
  ghost predicate GroupWeights(weights: PerStrategy<real>) {
    && (forall s: Strategy :: weights.At(s) >= 0.0)
    && GroupSum(weights, EXPLORATION) == 1.0 && GroupSum(weights, EXPLOITATION) == 1.0
  }

  lemma {:induction false} ScoreSumBound(observed: seq<Strategy>, fb: Feedback)
    requires fb.Valid() && forall s :: s in observed ==> fb.tested.At(s) > 0
    ensures ScoreSum(observed, fb) <= |observed| as real
    ensures forall s :: s in observed ==> ScoreSum(observed, fb) <= |observed| as real - 1.0 + fb.Score(s)
  {
    if observed != [] {
      assert observed[0] in observed;
      DivBounds(fb.accepted.At(observed[0]) as real, fb.tested.At(observed[0]) as real);
      ScoreSumBound(observed[1..], fb);
      forall s | s in observed ensures ScoreSum(observed, fb) <= |observed| as real - 1.0 + fb.Score(s) {
        if s != observed[0] { assert s in observed[1..]; }
      }
    }
  }

  lemma MeanOfBounded(n: real, sum: real, x: real)
    requires n >= 1.0 && 0.0 <= x && sum <= n - 1.0 + x
    ensures sum / n < 1.0 + x
  {
    MulNonneg(x, n - 1.0);
    assert x * (n - 1.0) == x * n - x;
    assert (1.0 + x) * n == n + x * n;
    DivLess(sum, n, 1.0 + x);
  }

  lemma TiltFactorPositive(weight: real, sensitivity: real, gap: real)
    requires weight > 0.0 && 0.0 < sensitivity <= 1.0 && gap > -1.0
    ensures Tilted(weight, sensitivity, gap) > 0.0
  {
    var factor := 1.0 + sensitivity * gap;
    if gap < 0.0 {
      MulNonneg(1.0 - sensitivity, -gap);
      assert (1.0 - sensitivity) * -gap == -gap + sensitivity * gap;
    } else {
      MulNonneg(sensitivity, gap);
    }
    MulPositive(weight, factor);
  }

  /** No tested strategy scores a full point below the mean. */
  ghost predicate WithinReach(fb: Feedback, group: seq<Strategy>, mean: real) {
    forall s :: s in group && fb.tested.At(s) > 0 ==> fb.Score(s) - mean > -1.0
  }

  /** An observed score is part of the mean, so the mean is never a full point above it. */
  lemma MeanWithinReach(fb: Feedback, group: seq<Strategy>)
    requires fb.Valid() && MeanScore(group, fb).Some?
    ensures WithinReach(fb, group, MeanScore(group, fb).value)
  {
    var observed := Observed(group, fb);
    ScoreSumBound(observed, fb);
    forall s | s in group && fb.tested.At(s) > 0 ensures fb.Score(s) - MeanScore(group, fb).value > -1.0 {
      DivBounds(fb.accepted.At(s) as real, fb.tested.At(s) as real);
      MeanOfBounded(|observed| as real, ScoreSum(observed, fb), fb.Score(s));
    }
  }

  lemma AdjustedSign(weight: real, fb: Feedback, sensitivity: real, mean: real, s: Strategy)
    requires weight >= 0.0 && 0.0 < sensitivity <= 1.0
    requires fb.tested.At(s) > 0 ==> fb.Score(s) - mean > -1.0
    ensures Adjusted(weight, fb, sensitivity, mean, s) >= 0.0
    ensures Adjusted(weight, fb, sensitivity, mean, s) > 0.0 <==> weight > 0.0
  {
    if fb.tested.At(s) > 0 && weight > 0.0 {
      TiltFactorPositive(weight, sensitivity, fb.Score(s) - mean);
    }
  }

  lemma {:induction false} SomePositive(v: seq<real>)
    requires forall i :: 0 <= i < |v| ==> v[i] >= 0.0
    ensures Sum(v) >= 0.0
    ensures Sum(v) > 0.0 <==> exists i :: 0 <= i < |v| && v[i] > 0.0
  {
    if v != [] {
      SomePositive(v[1..]);
      if i :| 0 <= i < |v| && v[i] > 0.0 {
        if i > 0 { assert v[1..][i - 1] > 0.0; }
      }
      if i :| 0 <= i < |v[1..]| && v[1..][i] > 0.0 {
        assert v[i + 1] > 0.0;
      }
    }
  }

  ghost function TiltedGroup(weights: PerStrategy<real>, fb: Feedback, sensitivity: real, mean: Option<real>, group: seq<Strategy>): (r: seq<real>)
    ensures |r| == |group|
    ensures forall i :: 0 <= i < |group| ==> r[i] == TiltedWeight(weights, fb, sensitivity, mean, group, group[i])
  {
    seq(|group|, i requires 0 <= i < |group| => TiltedWeight(weights, fb, sensitivity, mean, group, group[i]))
  }

  lemma TiltKeepsGroup(weights: PerStrategy<real>, fb: Feedback, sensitivity: real, mean: Option<real>, group: seq<Strategy>)
    requires group != [] && 0.0 < sensitivity <= 1.0
    requires forall i :: 0 <= i < |group| ==> weights.At(group[i]) >= 0.0
    requires GroupSum(weights, group) == 1.0
    requires mean.Some? ==> WithinReach(fb, group, mean.value)
    ensures forall i :: 0 <= i < |group| ==>
      && TiltedGroup(weights, fb, sensitivity, mean, group)[i] >= 0.0
      && (TiltedGroup(weights, fb, sensitivity, mean, group)[i] > 0.0 <==> weights.At(group[i]) > 0.0)
    ensures Sum(TiltedGroup(weights, fb, sensitivity, mean, group)) == 1.0
  {
    var tilted := TiltedGroup(weights, fb, sensitivity, mean, group);
    if mean.None? {
      assert tilted == Along(weights, group);
    } else {
      var adjusted := AdjustedGroup(weights, fb, sensitivity, mean.value, group);
      forall i | 0 <= i < |group| ensures adjusted[i] >= 0.0 && (adjusted[i] > 0.0 <==> weights.At(group[i]) > 0.0) {
        AdjustedSign(weights.At(group[i]), fb, sensitivity, mean.value, group[i]);
      }
      SomePositive(Along(weights, group));
      var k :| 0 <= k < |group| && Along(weights, group)[k] > 0.0;
      assert adjusted[k] > 0.0;
      SomePositive(adjusted);
      forall i | 0 <= i < |group|
        ensures tilted[i] >= 0.0 && (tilted[i] > 0.0 <==> adjusted[i] > 0.0) && IsQuotient(tilted[i], 1.0, adjusted[i], Sum(adjusted))
      {
        DivideSign(adjusted[i], Sum(adjusted));
      }
      ProportionsSum(adjusted, tilted, 1.0);
    }
  }

  lemma DivideSign(x: real, total: real)
    requires x >= 0.0 && total > 0.0
    ensures x / total >= 0.0 && (x / total > 0.0 <==> x > 0.0) && IsQuotient(x / total, 1.0, x, total)
  {
  }

  /** Whatever the feedback, tilting keeps each group summing to 1, and no weight appears or vanishes. */
  lemma TiltKeepsWeights(weights: PerStrategy<real>, fb: Feedback, sensitivity: real)
    requires GroupWeights(weights) && fb.Valid() && 0.0 < sensitivity <= 1.0
    ensures GroupWeights(TiltGroupWeights(weights, fb, sensitivity))
    ensures forall s: Strategy :: TiltGroupWeights(weights, fb, sensitivity).At(s) > 0.0 <==> weights.At(s) > 0.0
  {
    var up, down := MeanScore(EXPLORATION, fb), MeanScore(EXPLOITATION, fb);
    if up.Some? { MeanWithinReach(fb, EXPLORATION); }
    if down.Some? { MeanWithinReach(fb, EXPLOITATION); }
    TiltByMeansKeepsWeights(weights, fb, sensitivity, up, down);
  }

  lemma TiltByMeansKeepsWeights(weights: PerStrategy<real>, fb: Feedback, sensitivity: real, up: Option<real>, down: Option<real>)
    requires GroupWeights(weights) && 0.0 < sensitivity <= 1.0
    requires up.Some? ==> WithinReach(fb, EXPLORATION, up.value)
    requires down.Some? ==> WithinReach(fb, EXPLOITATION, down.value)
    ensures GroupWeights(TiltByMeans(weights, fb, sensitivity, up, down))
    ensures forall s: Strategy :: TiltByMeans(weights, fb, sensitivity, up, down).At(s) > 0.0 <==> weights.At(s) > 0.0
  {
    var tilted := TiltByMeans(weights, fb, sensitivity, up, down);
    TiltKeepsGroup(weights, fb, sensitivity, up, EXPLORATION);
    TiltKeepsGroup(weights, fb, sensitivity, down, EXPLOITATION);
    var explore := TiltedGroup(weights, fb, sensitivity, up, EXPLORATION);
    var exploit := TiltedGroup(weights, fb, sensitivity, down, EXPLOITATION);
    assert Along(tilted, EXPLORATION) == explore;
    assert Along(tilted, EXPLOITATION) == exploit;
    forall s: Strategy ensures tilted.At(s) >= 0.0 && (tilted.At(s) > 0.0 <==> weights.At(s) > 0.0) {
      match s
      case Mutate => assert tilted.At(s) == exploit[0];
      case Crossover => assert tilted.At(s) == exploit[1];
      case ParameterPerturb => assert tilted.At(s) == exploit[2];
      case RandomExplore => assert tilted.At(s) == explore[0];
      case LlmMechanism => assert tilted.At(s) == explore[1];
    }
  }

  // ---- Which way the weights tilt.

  /** Both strategies belong to this group. */
  predicate Together(group: seq<Strategy>, a: Strategy, b: Strategy) {
    (group == EXPLORATION || group == EXPLOITATION) && a in group && b in group
  }

  lemma AdjustedTotal(weights: PerStrategy<real>, fb: Feedback, sensitivity: real, mean: real, group: seq<Strategy>)
    requires group != [] && 0.0 < sensitivity <= 1.0 && WithinReach(fb, group, mean)
    requires forall i :: 0 <= i < |group| ==> weights.At(group[i]) >= 0.0
    requires GroupSum(weights, group) == 1.0
    ensures Sum(AdjustedGroup(weights, fb, sensitivity, mean, group)) > 0.0
  {
    var adjusted := AdjustedGroup(weights, fb, sensitivity, mean, group);
    forall i | 0 <= i < |group| ensures adjusted[i] >= 0.0 && (adjusted[i] > 0.0 <==> weights.At(group[i]) > 0.0) {
      AdjustedSign(weights.At(group[i]), fb, sensitivity, mean, group[i]);
    }
    SomePositive(Along(weights, group));
    var k :| 0 <= k < |group| && Along(weights, group)[k] > 0.0;
    assert adjusted[k] > 0.0;
    SomePositive(adjusted);
  }

  /** The factor a weight is multiplied with before the group is normalised again. */
  function TiltFactor(fb: Feedback, sensitivity: real, mean: real, s: Strategy): real {
    if fb.tested.At(s) > 0 then 1.0 + sensitivity * (fb.Score(s) - mean) else 1.0
  }

  /** The two new weights stand to each other as the old ones times these factors. */
  ghost predicate InProportion(ta: real, tb: real, wa: real, wb: real, fa: real, fb: real) {
    ta * wb * fb == tb * wa * fa
  }

  /** A new weight: the old one times its factor, normalised. */
  predicate Scaled(t: real, w: real, f: real, total: real) {
    t * total == w * f
  }

  lemma QuotientScaled(w: real, f: real, total: real)
    requires total > 0.0
    ensures Scaled(w * f / total, w, f, total)
  {
  }

  lemma TiltedScaled(weights: PerStrategy<real>, fb: Feedback, sensitivity: real, mean: real, group: seq<Strategy>, a: Strategy)
    requires Sum(AdjustedGroup(weights, fb, sensitivity, mean, group)) > 0.0
    ensures Scaled(TiltedWeight(weights, fb, sensitivity, Some(mean), group, a), weights.At(a), TiltFactor(fb, sensitivity, mean, a),
                   Sum(AdjustedGroup(weights, fb, sensitivity, mean, group)))
  {
    QuotientScaled(weights.At(a), TiltFactor(fb, sensitivity, mean, a), Sum(AdjustedGroup(weights, fb, sensitivity, mean, group)));
  }

  lemma ScaledInProportion(ta: real, tb: real, wa: real, wb: real, fa: real, fb: real, total: real)
    requires total > 0.0 && Scaled(ta, wa, fa, total) && Scaled(tb, wb, fb, total)
    ensures InProportion(ta, tb, wa, wb, fa, fb)
  {
    assert (ta * wb * fb) * total == (ta * total) * (wb * fb);
    assert (tb * wa * fa) * total == (tb * total) * (wa * fa);
    CancelFactor(ta * wb * fb, tb * wa * fa, total);
  }

  lemma CancelFactor(x: real, y: real, c: real)
    requires c != 0.0 && x * c == y * c
    ensures x == y
  {
    assert (x - y) * c == 0.0;
  }

  lemma TiltedInProportion(weights: PerStrategy<real>, fb: Feedback, sensitivity: real, mean: real, group: seq<Strategy>, a: Strategy, b: Strategy)
    requires a in group && b in group && Sum(AdjustedGroup(weights, fb, sensitivity, mean, group)) > 0.0
    ensures InProportion(TiltedWeight(weights, fb, sensitivity, Some(mean), group, a), TiltedWeight(weights, fb, sensitivity, Some(mean), group, b),
                         weights.At(a), weights.At(b), TiltFactor(fb, sensitivity, mean, a), TiltFactor(fb, sensitivity, mean, b))
  {
    TiltedScaled(weights, fb, sensitivity, mean, group, a);
    TiltedScaled(weights, fb, sensitivity, mean, group, b);
    ScaledInProportion(TiltedWeight(weights, fb, sensitivity, Some(mean), group, a), TiltedWeight(weights, fb, sensitivity, Some(mean), group, b),
                       weights.At(a), weights.At(b), TiltFactor(fb, sensitivity, mean, a), TiltFactor(fb, sensitivity, mean, b),
                       Sum(AdjustedGroup(weights, fb, sensitivity, mean, group)));
  }

  lemma TiltOfGroup(weights: PerStrategy<real>, fb: Feedback, sensitivity: real, group: seq<Strategy>, a: Strategy)
    requires Together(group, a, a)
    ensures TiltGroupWeights(weights, fb, sensitivity).At(a) == TiltedWeight(weights, fb, sensitivity, MeanScore(group, fb), group, a)
  {
  }

  lemma FactorPositive(fb: Feedback, sensitivity: real, mean: real, group: seq<Strategy>, s: Strategy)
    requires WithinReach(fb, group, mean) && s in group && 0.0 < sensitivity <= 1.0
    ensures TiltFactor(fb, sensitivity, mean, s) > 0.0
  {
    if fb.tested.At(s) > 0 {
      TiltFactorPositive(1.0, sensitivity, fb.Score(s) - mean);
    }
  }

  lemma GroupTotal(weights: PerStrategy<real>, fb: Feedback, sensitivity: real, mean: real, group: seq<Strategy>)
    requires GroupWeights(weights) && 0.0 < sensitivity <= 1.0 && (group == EXPLORATION || group == EXPLOITATION)
    requires WithinReach(fb, group, mean)
    ensures Sum(AdjustedGroup(weights, fb, sensitivity, mean, group)) > 0.0
  {
    AdjustedTotal(weights, fb, sensitivity, mean, group);
  }

  /** Inside a group the new weights stand to each other as the old ones, each times one plus the sensitivity times the
      distance of the strategy's score from the mean score; a strategy without tests keeps the factor one. */
  lemma TiltIsProportional(weights: PerStrategy<real>, fb: Feedback, sensitivity: real, group: seq<Strategy>, a: Strategy, b: Strategy)
    requires GroupWeights(weights) && fb.Valid() && 0.0 < sensitivity <= 1.0 && Together(group, a, b)
    requires MeanScore(group, fb).Some?
    ensures var t, m := TiltGroupWeights(weights, fb, sensitivity), MeanScore(group, fb).value;
      InProportion(t.At(a), t.At(b), weights.At(a), weights.At(b), TiltFactor(fb, sensitivity, m, a), TiltFactor(fb, sensitivity, m, b))
  {
    var m := MeanScore(group, fb).value;
    MeanWithinReach(fb, group);
    GroupTotal(weights, fb, sensitivity, m, group);
    TiltOfGroup(weights, fb, sensitivity, group, a);
    TiltOfGroup(weights, fb, sensitivity, group, b);
    TiltedInProportion(weights, fb, sensitivity, m, group, a, b);
  }

  /** The first weight has grown against the second. */
  predicate Gains(ta: real, tb: real, wa: real, wb: real) {
    ta * wb > tb * wa
  }

  predicate Keeps(ta: real, tb: real, wa: real, wb: real) {
    ta * wb == tb * wa
  }

  lemma ProportionDecides(ta: real, tb: real, wa: real, wb: real, fa: real, fb: real)
    requires InProportion(ta, tb, wa, wb, fa, fb) && wa > 0.0 && wb > 0.0 && fa > 0.0 && fb > 0.0 && tb > 0.0
    ensures fa > fb ==> Gains(ta, tb, wa, wb)
    ensures fa == fb ==> Keeps(ta, tb, wa, wb)
  {
    var x, y := ta * wb, tb * wa;
    assert x * fb == y * fa;
    MulPositive(tb, wa);
    if fa > fb {
      MulPositive(y, fa - fb);
      assert x * fb > y * fb;
      if x <= y {
        MulNonneg(y - x, fb);
      }
    } else if fa == fb {
      CancelFactor(x, y, fb);
    }
  }

  /** A score in whole numbers. */
  lemma ScoresCompare(fb: Feedback, a: Strategy, b: Strategy)
    requires fb.Valid() && fb.tested.At(a) > 0 && fb.tested.At(b) > 0
    ensures fb.Score(a) > fb.Score(b) <==> fb.accepted.At(a) * fb.tested.At(b) > fb.accepted.At(b) * fb.tested.At(a)
    ensures fb.Score(a) == fb.Score(b) <==> fb.accepted.At(a) * fb.tested.At(b) == fb.accepted.At(b) * fb.tested.At(a)
  {
    RatiosCompare(fb.accepted.At(a), fb.tested.At(a), fb.accepted.At(b), fb.tested.At(b));
  }

  lemma RatiosCompare(i: int, m: int, j: int, n: int)
    requires m > 0 && n > 0
    ensures i as real / m as real > j as real / n as real <==> i * n > j * m
    ensures i as real / m as real == j as real / n as real <==> i * n == j * m
  {
    var x, y, k := i as real / m as real, j as real / n as real, m as real * n as real;
    MulPositive(m as real, n as real);
    assert x * m as real == i as real && y * n as real == j as real;
    assert x * k == (x * m as real) * n as real == i as real * n as real == (i * n) as real;
    assert y * k == (y * n as real) * m as real == j as real * m as real == (j * m) as real;
    if x > y {
      MulPositive(x - y, k);
    } else if x < y {
      MulPositive(y - x, k);
    }
  }

  /** Between two tested strategies of a group, weight moves to the one with the larger share of acceptances; with equal
      shares their proportion stays. */
  lemma TiltFavoursAcceptance(weights: PerStrategy<real>, fb: Feedback, sensitivity: real, group: seq<Strategy>, a: Strategy, b: Strategy)
    requires GroupWeights(weights) && fb.Valid() && 0.0 < sensitivity <= 1.0 && Together(group, a, b)
    requires fb.tested.At(a) > 0 && fb.tested.At(b) > 0 && weights.At(a) > 0.0 && weights.At(b) > 0.0
    ensures var t := TiltGroupWeights(weights, fb, sensitivity);
      && (fb.accepted.At(a) * fb.tested.At(b) > fb.accepted.At(b) * fb.tested.At(a) ==> Gains(t.At(a), t.At(b), weights.At(a), weights.At(b)))
      && (fb.accepted.At(a) * fb.tested.At(b) == fb.accepted.At(b) * fb.tested.At(a) ==> Keeps(t.At(a), t.At(b), weights.At(a), weights.At(b)))
  {
    assert a in Observed(group, fb);
    var t, m := TiltGroupWeights(weights, fb, sensitivity), MeanScore(group, fb).value;
    TiltKeepsWeights(weights, fb, sensitivity);
    TiltIsProportional(weights, fb, sensitivity, group, a, b);
    MeanWithinReach(fb, group);
    BetterScoreGains(fb, sensitivity, m, group, a, b, t.At(a), t.At(b), weights.At(a), weights.At(b));
  }

  lemma BetterScoreGains(fb: Feedback, sensitivity: real, mean: real, group: seq<Strategy>, a: Strategy, b: Strategy, ta: real, tb: real, wa: real, wb: real)
    requires fb.Valid() && 0.0 < sensitivity <= 1.0 && a in group && b in group && WithinReach(fb, group, mean)
    requires fb.tested.At(a) > 0 && fb.tested.At(b) > 0 && wa > 0.0 && wb > 0.0 && tb > 0.0
    requires InProportion(ta, tb, wa, wb, TiltFactor(fb, sensitivity, mean, a), TiltFactor(fb, sensitivity, mean, b))
    ensures fb.accepted.At(a) * fb.tested.At(b) > fb.accepted.At(b) * fb.tested.At(a) ==> Gains(ta, tb, wa, wb)
    ensures fb.accepted.At(a) * fb.tested.At(b) == fb.accepted.At(b) * fb.tested.At(a) ==> Keeps(ta, tb, wa, wb)
  {
    ScoresCompare(fb, a, b);
    FactorsCompare(sensitivity, fb.Score(a), fb.Score(b), mean);
    FactorPositive(fb, sensitivity, mean, group, a);
    FactorPositive(fb, sensitivity, mean, group, b);
    ProportionDecides(ta, tb, wa, wb, TiltFactor(fb, sensitivity, mean, a), TiltFactor(fb, sensitivity, mean, b));
  }

  lemma FactorsCompare(sensitivity: real, x: real, y: real, mean: real)
    requires sensitivity > 0.0
    ensures x > y ==> 1.0 + sensitivity * (x - mean) > 1.0 + sensitivity * (y - mean)
  {
    if x > y {
      MulPositive(sensitivity, x - y);
      assert sensitivity * (x - mean) - sensitivity * (y - mean) == sensitivity * (x - y);
    }
  }

  /** The mean the scores are compared with: the tested strategies of the group, each counted once. */
  lemma MeanScoreIs(group: seq<Strategy>, fb: Feedback)
    requires MeanScore(group, fb).Some?
    ensures IsQuotient(MeanScore(group, fb).value, 1.0, ScoreSum(Observed(group, fb), fb), |Observed(group, fb)| as real)
  {
    QuotientIs(1.0, ScoreSum(Observed(group, fb), fb), |Observed(group, fb)| as real);
  }

  /** Where nothing of a group was tested its weights stay. */
  lemma UntestedGroupKeeps(weights: PerStrategy<real>, fb: Feedback, sensitivity: real, group: seq<Strategy>, a: Strategy)
    requires Together(group, a, a) && forall i :: 0 <= i < |group| ==> fb.tested.At(group[i]) <= 0
    ensures TiltGroupWeights(weights, fb, sensitivity).At(a) == weights.At(a)
  {
    TiltOfGroup(weights, fb, sensitivity, group, a);
    NothingObserved(group, fb);
  }

  lemma {:induction false} NothingObserved(group: seq<Strategy>, fb: Feedback)
    requires forall i :: 0 <= i < |group| ==> fb.tested.At(group[i]) <= 0
    ensures Observed(group, fb) == []
  {
    if group != [] {
      NothingObserved(group[1..], fb);
    }
  }

  // ---- The governor.

  datatype SearchState = SearchState(
    rounds: int, momentum: Option<real>, share: real, windowStep: int, streak: int, weights: PerStrategy<real>)

  function Rate(fb: Feedback): real {
    if fb.TotalTested() > 0 then fb.TotalAccepted() as real / fb.TotalTested() as real else 0.0
  }

  /** What one round's feedback says, apart from the scores of single strategies. */
  datatype Signals = Signals(tested: bool, accepted: bool, rate: real, repeated: bool)

  function SignalsOf(p: Policy, fb: Feedback): Signals {
    Signals(fb.TotalTested() > 0, fb.TotalAccepted() > 0, Rate(fb), fb.DuplicateRate() >= p.duplicateThreshold)
  }

  function Blend(alpha: real, x: real, y: real): real {
    alpha * x + (1.0 - alpha) * y
  }

  function NextMomentum(p: Policy, m: Option<real>, sig: Signals): Option<real> {
    if !sig.tested then m
    else if m.None? then Some(sig.rate)
    else Some(Blend(p.momentumAlpha, sig.rate, m.value))
  }

  /** The momentum moves towards the round's acceptance rate, by the part `momentumAlpha` of the distance; the first tested round sets it. */
  lemma MomentumMoves(p: Policy, s: SearchState, fb: Feedback)
    ensures var next := NextState(p, s, fb).momentum;
      && (fb.TotalTested() <= 0 ==> next == s.momentum)
      && (fb.TotalTested() > 0 && s.momentum.None? ==> next == Some(Rate(fb)))
      && (fb.TotalTested() > 0 && s.momentum.Some? ==>
            next.Some? && next.value - s.momentum.value == p.momentumAlpha * (Rate(fb) - s.momentum.value))
  {
    if s.momentum.Some? {
      BlendMoves(p.momentumAlpha, Rate(fb), s.momentum.value);
    }
  }

  lemma BlendMoves(alpha: real, x: real, y: real)
    ensures Blend(alpha, x, y) - y == alpha * (x - y)
  {
  }

  lemma TotalsMean(fb: Feedback)
    requires fb.Valid()
    ensures fb.TotalTested() == CountSum(fb.tested, DECLARED) && fb.TotalAccepted() == CountSum(fb.accepted, DECLARED)
    ensures 0 <= fb.TotalAccepted() <= fb.TotalTested()
  {
    CountsOfFive(fb.tested);
    CountsOfFive(fb.accepted);
    assert 0 <= fb.accepted.At(Mutate) <= fb.tested.At(Mutate) && 0 <= fb.accepted.At(Crossover) <= fb.tested.At(Crossover);
    assert 0 <= fb.accepted.At(ParameterPerturb) <= fb.tested.At(ParameterPerturb);
    assert 0 <= fb.accepted.At(RandomExplore) <= fb.tested.At(RandomExplore) && 0 <= fb.accepted.At(LlmMechanism) <= fb.tested.At(LlmMechanism);
  }

  lemma RateMeans(accepted: int, tested: int)
    requires 0 <= accepted <= tested
    ensures IsQuotient(if tested > 0 then accepted as real / tested as real else 0.0, 1.0, accepted as real, tested as real)
  {
    if tested > 0 {
      QuotientIs(1.0, accepted as real, tested as real);
    }
  }

  /** What was tested and accepted over all strategies, and the rate between them, in whole numbers. */
  lemma SignalsMean(p: Policy, fb: Feedback)
    requires fb.Valid()
    ensures var sig, tested, accepted := SignalsOf(p, fb), CountSum(fb.tested, DECLARED), CountSum(fb.accepted, DECLARED);
      && (sig.tested <==> tested > 0) && (sig.accepted <==> accepted > 0)
      && IsQuotient(sig.rate, 1.0, accepted as real, tested as real)
  {
    TotalsMean(fb);
    RateMeans(fb.TotalAccepted(), fb.TotalTested());
  }

  /** At least this share of `n`. */
  predicate AtLeast(k: int, share: real, n: int) {
    k as real >= share * n as real
  }

  /** A round counts as repetitive when enough of what was generated were duplicates; without generation, when any share is enough. */
  lemma RepetitionMeans(p: Policy, fb: Feedback)
    requires p.Valid() && fb.Valid()
    ensures SignalsOf(p, fb).repeated <==>
      if fb.generated > 0 then AtLeast(fb.duplicates, p.duplicateThreshold, fb.generated) else p.duplicateThreshold == 0.0
  {
    if fb.generated > 0 {
      RatioAtLeast(fb.duplicates as real, fb.generated as real, p.duplicateThreshold);
    }
  }

  lemma RatioAtLeast(x: real, n: real, bound: real)
    requires n > 0.0
    ensures x / n >= bound <==> x >= bound * n
  {
    var q := x / n;
    assert q * n == x;
    if q >= bound {
      MulNonneg(q - bound, n);
      assert (q - bound) * n == x - bound * n;
    } else {
      MulPositive(bound - q, n);
      assert (bound - q) * n == bound * n - x;
    }
  }

  function CountSum(m: PerStrategy<int>, group: seq<Strategy>): int {
    if group == [] then 0 else m.At(group[0]) + CountSum(m, group[1..])
  }

  lemma CountFirst(m: PerStrategy<int>, s: Strategy, rest: seq<Strategy>)
    ensures CountSum(m, [s] + rest) == m.At(s) + CountSum(m, rest)
  {
    assert ([s] + rest)[1..] == rest;
  }

  lemma CountsOfFive(m: PerStrategy<int>)
    ensures CountSum(m, DECLARED) == m.mutate + m.crossover + m.perturb + m.random + m.llm
  {
    CountFirst(m, LlmMechanism, []);
    CountFirst(m, RandomExplore, [LlmMechanism]);
    CountFirst(m, ParameterPerturb, [RandomExplore, LlmMechanism]);
    CountFirst(m, Crossover, [ParameterPerturb, RandomExplore, LlmMechanism]);
    CountFirst(m, Mutate, [Crossover, ParameterPerturb, RandomExplore, LlmMechanism]);
    assert [LlmMechanism] + [] == [LlmMechanism] && [RandomExplore] + [LlmMechanism] == [RandomExplore, LlmMechanism];
    assert [ParameterPerturb] + [RandomExplore, LlmMechanism] == [ParameterPerturb, RandomExplore, LlmMechanism];
    assert [Crossover] + [ParameterPerturb, RandomExplore, LlmMechanism] == [Crossover, ParameterPerturb, RandomExplore, LlmMechanism];
    assert [Mutate] + [Crossover, ParameterPerturb, RandomExplore, LlmMechanism] == DECLARED;
  }

  /** Over a round, too, weight moves between two tested strategies of a group to the one with the larger share of acceptances. */
  lemma RoundFavoursAcceptance(p: Policy, s: SearchState, fb: Feedback, group: seq<Strategy>, a: Strategy, b: Strategy)
    requires GoodState(p, s) && fb.Valid() && Together(group, a, b)
    requires fb.tested.At(a) > 0 && fb.tested.At(b) > 0 && s.weights.At(a) > 0.0 && s.weights.At(b) > 0.0
    ensures var t := NextState(p, s, fb).weights;
      && (fb.accepted.At(a) * fb.tested.At(b) > fb.accepted.At(b) * fb.tested.At(a) ==> Gains(t.At(a), t.At(b), s.weights.At(a), s.weights.At(b)))
      && (fb.accepted.At(a) * fb.tested.At(b) == fb.accepted.At(b) * fb.tested.At(a) ==> Keeps(t.At(a), t.At(b), s.weights.At(a), s.weights.At(b)))
  {
    TiltFavoursAcceptance(s.weights, fb, p.tiltSensitivity, group, a, b);
  }

  function NextStreak(streak: int, sig: Signals): int {
    if !sig.tested then streak else if sig.accepted then 0 else streak + 1
  }

  function Shift(p: Policy, streak: int, sig: Signals): real {
    var down := if sig.tested && sig.rate >= p.exploitationThreshold then -p.maxAdjustStep else 0.0;
    var stalled := if sig.tested && streak >= p.stagnationRounds then p.maxAdjustStep else 0.0;
    var repeated := if sig.repeated then p.duplicateShift else 0.0;
    Clamp(down + stalled + repeated, -p.maxAdjustStep, p.maxAdjustStep)
  }

  function NextStep(p: Policy, step: int, previous: Option<real>, momentum: Option<real>, streak: int): int {
    if momentum.None? then step
    else if momentum.value >= p.exploitationThreshold && (previous.None? || momentum.value >= previous.value) then p.minWindowStep
    else if streak >= p.stagnationRounds || (previous.Some? && momentum.value < previous.value) then
      if step + 1 <= p.maxWindowStep then step + 1 else p.maxWindowStep
    else step
  }

  function NextStateWith(p: Policy, s: SearchState, sig: Signals, weights: PerStrategy<real>): SearchState {
    var momentum, streak := NextMomentum(p, s.momentum, sig), NextStreak(s.streak, sig);
    SearchState(
      s.rounds + 1, momentum,
      Clamp(s.share + Shift(p, streak, sig), p.minShare, p.maxShare),
      NextStep(p, s.windowStep, s.momentum, momentum, streak),
      streak, weights)
  }

  /** One round of feedback. */
  function NextState(p: Policy, s: SearchState, fb: Feedback): SearchState {
    NextStateWith(p, s, SignalsOf(p, fb), TiltGroupWeights(s.weights, fb, p.tiltSensitivity))
  }

  function BaseWeight(ratio: real, total: real, size: int): real
    requires size > 0
  {
    if total > 0.0 then ratio / total else 1.0 / size as real
  }

  /** `_base_group_weights`. */
  function BaseWeights(base: PerStrategy<real>): PerStrategy<real> {
    var exploit := base.mutate + base.crossover + base.perturb;
    var explore := base.random + base.llm;
    PerStrategy(BaseWeight(base.mutate, exploit, 3), BaseWeight(base.crossover, exploit, 3), BaseWeight(base.perturb, exploit, 3),
                BaseWeight(base.random, explore, 2), BaseWeight(base.llm, explore, 2))
  }

  /** The governor's own check of the base ratios, and the state's check of the share they start it with. */
  ghost predicate BaseAccepted(p: Policy, base: PerStrategy<real>) {
    (forall s: Strategy :: p.minRatios.At(s) <= base.At(s) <= p.maxRatios.At(s)) && 0.0 <= base.random + base.llm <= 1.0
  }

  function InitialSearch(p: Policy, base: PerStrategy<real>): SearchState {
    SearchState(0, None, base.random + base.llm, p.minWindowStep, 0, BaseWeights(base))
  }

  /** What holds after construction from any accepted base and is kept by every round. */
  ghost predicate GoodState(p: Policy, s: SearchState) {
    && p.Valid()
    && (s.momentum.Some? ==> 0.0 <= s.momentum.value <= 1.0)
    && p.minWindowStep <= s.windowStep <= p.maxWindowStep
    && 0.0 <= s.share <= 1.0
    && s.rounds >= 0 && s.streak >= 0
    && GroupWeights(s.weights)
  }

  /** Both groups can absorb their part of the total within their bounds. */
  ghost predicate ShareFits(p: Policy, share: real) {
    && GroupSum(p.minRatios, EXPLORATION) <= share <= GroupSum(p.maxRatios, EXPLORATION)
    && GroupSum(p.minRatios, EXPLOITATION) <= 1.0 - share <= GroupSum(p.maxRatios, EXPLOITATION)
  }

  ghost predicate EveryWeightPositive(weights: PerStrategy<real>) {
    forall s: Strategy :: weights.At(s) > 0.0
  }

  function GroupItems(p: Policy, weights: PerStrategy<real>, group: seq<Strategy>): (r: seq<Item>)
    ensures |r| == |group|
    ensures forall i :: 0 <= i < |group| ==> r[i] == Item(weights.At(group[i]), p.minRatios.At(group[i]), p.maxRatios.At(group[i]))
  {
    seq(|group|, i requires 0 <= i < |group| => Item(weights.At(group[i]), p.minRatios.At(group[i]), p.maxRatios.At(group[i])))
  }

  /** What the weighted strategies of each group can reach covers the group's part of the quota. */
  ghost predicate Fits(p: Policy, weights: PerStrategy<real>, share: real) {
    && Feasible(share, GroupItems(p, weights, EXPLORATION))
    && Feasible(1.0 - share, GroupItems(p, weights, EXPLOITATION))
  }

  /** The exact condition for a quota to exist. */
  ghost predicate QuotaFeasible(p: Policy, s: SearchState) {
    Fits(p, s.weights, s.share)
  }

  lemma BaseWeightsGood(p: Policy, base: PerStrategy<real>)
    requires p.Valid() && BaseAccepted(p, base)
    ensures GroupWeights(BaseWeights(base))
    ensures (forall s: Strategy :: base.At(s) > 0.0) ==> EveryWeightPositive(BaseWeights(base))
  {
    var w := BaseWeights(base);
    GroupSums(w);
    forall s: Strategy ensures base.At(s) >= 0.0 {
      assert 0.0 <= p.minRatios.At(s) <= base.At(s);
    }
    assert base.mutate == base.At(Mutate) && base.crossover == base.At(Crossover) && base.perturb == base.At(ParameterPerturb);
    assert base.random == base.At(RandomExplore) && base.llm == base.At(LlmMechanism);
    QuotientsOfTwo(base.random, base.llm);
    QuotientsOfThree(base.mutate, base.crossover, base.perturb);
  }

  lemma BaseWeightAt(base: PerStrategy<real>, group: seq<Strategy>, s: Strategy)
    requires Together(group, s, s)
    ensures BaseWeights(base).At(s) ==
      BaseWeight(base.At(s), if group == EXPLORATION then base.random + base.llm else base.mutate + base.crossover + base.perturb, |group|)
  {
  }

  /** The first weights of a group stand to each other as its base ratios, and are equal where the ratios are. */
  lemma BaseWeightsMean(base: PerStrategy<real>, group: seq<Strategy>, a: Strategy, b: Strategy)
    requires (forall s: Strategy :: base.At(s) >= 0.0) && Together(group, a, b)
    ensures Keeps(BaseWeights(base).At(a), BaseWeights(base).At(b), base.At(a), base.At(b))
    ensures base.At(a) == base.At(b) ==> BaseWeights(base).At(a) == BaseWeights(base).At(b)
  {
    assert base.mutate == base.At(Mutate) && base.crossover == base.At(Crossover) && base.perturb == base.At(ParameterPerturb);
    assert base.random == base.At(RandomExplore) && base.llm == base.At(LlmMechanism);
    BaseWeightAt(base, group, a);
    BaseWeightAt(base, group, b);
    var total := if group == EXPLORATION then base.random + base.llm else base.mutate + base.crossover + base.perturb;
    BaseWeightsCross(base.At(a), base.At(b), total, |group|);
  }

  lemma BaseWeightsCross(x: real, y: real, total: real, size: int)
    requires size > 0 && 0.0 <= x <= total && 0.0 <= y <= total
    ensures Keeps(BaseWeight(x, total, size), BaseWeight(y, total, size), x, y)
  {
    if total > 0.0 {
      var p, q := x / total, y / total;
      assert p * total == x && q * total == y;
      assert (p * y) * total == (q * x) * total;
      CancelFactor(p * y, q * x, total);
    }
  }

  lemma QuotientsOfTwo(x: real, y: real)
    requires x >= 0.0 && y >= 0.0
    ensures BaseWeight(x, x + y, 2) + BaseWeight(y, x + y, 2) == 1.0
    ensures BaseWeight(x, x + y, 2) >= 0.0 && BaseWeight(y, x + y, 2) >= 0.0
    ensures x > 0.0 ==> BaseWeight(x, x + y, 2) > 0.0
    ensures y > 0.0 ==> BaseWeight(y, x + y, 2) > 0.0
  {
    if x + y > 0.0 {
      DivideSign(x, x + y);
      DivideSign(y, x + y);
      WholeOfParts([x, y], x + y);
    }
  }

  lemma QuotientsOfThree(x: real, y: real, z: real)
    requires x >= 0.0 && y >= 0.0 && z >= 0.0
    ensures BaseWeight(x, x + y + z, 3) + BaseWeight(y, x + y + z, 3) + BaseWeight(z, x + y + z, 3) == 1.0
    ensures BaseWeight(x, x + y + z, 3) >= 0.0 && BaseWeight(y, x + y + z, 3) >= 0.0 && BaseWeight(z, x + y + z, 3) >= 0.0
    ensures x > 0.0 ==> BaseWeight(x, x + y + z, 3) > 0.0
    ensures y > 0.0 ==> BaseWeight(y, x + y + z, 3) > 0.0
    ensures z > 0.0 ==> BaseWeight(z, x + y + z, 3) > 0.0
  {
    if x + y + z > 0.0 {
      DivideSign(x, x + y + z);
      DivideSign(y, x + y + z);
      DivideSign(z, x + y + z);
      WholeOfParts([x, y, z], x + y + z);
    }
  }

  lemma WholeOfParts(v: seq<real>, total: real)
    requires 2 <= |v| <= 3 && total > 0.0
    requires total == if |v| == 2 then v[0] + v[1] else v[0] + v[1] + v[2]
    ensures |v| == 2 ==> v[0] / total + v[1] / total == 1.0
    ensures |v| == 3 ==> v[0] / total + v[1] / total + v[2] / total == 1.0
  {
    if |v| == 2 { SumOfTwo(v[0], v[1]); } else { SumOfThree(v[0], v[1], v[2]); }
    assert v == if |v| == 2 then [v[0], v[1]] else [v[0], v[1], v[2]];
    var parts := seq(|v|, i requires 0 <= i < |v| => v[i] / total);
    forall i | 0 <= i < |v| ensures IsQuotient(parts[i], 1.0, v[i], total) {
      QuotientIs(1.0, v[i], total);
    }
    ProportionsSum(v, parts, 1.0);
    assert parts == if |v| == 2 then [parts[0], parts[1]] else [parts[0], parts[1], parts[2]];
    if |v| == 2 { SumOfTwo(parts[0], parts[1]); } else { SumOfThree(parts[0], parts[1], parts[2]); }
  }

  lemma InitialStateGood(p: Policy, base: PerStrategy<real>)
    requires p.Valid() && BaseAccepted(p, base)
    ensures GoodState(p, InitialSearch(p, base))
    ensures GroupSum(base, EXPLORATION) + GroupSum(base, EXPLOITATION) == 1.0 ==> ShareFits(p, InitialSearch(p, base).share)
  {
    BaseWeightsGood(p, base);
    GroupSums(base);
    forall group | group == EXPLORATION || group == EXPLOITATION
      ensures GroupSum(p.minRatios, group) <= GroupSum(base, group) <= GroupSum(p.maxRatios, group)
    {
      SumMonotone(Along(p.minRatios, group), Along(base, group));
      SumMonotone(Along(base, group), Along(p.maxRatios, group));
    }
  }

  lemma ConvexCombination(alpha: real, x: real, y: real)
    requires 0.0 < alpha <= 1.0
    ensures x <= y ==> x <= Blend(alpha, x, y) <= y
    ensures y <= x ==> y <= Blend(alpha, x, y) <= x
  {
    if x <= y {
      MulNonneg(alpha, y - x);
      MulNonneg(1.0 - alpha, y - x);
    } else {
      MulNonneg(alpha, x - y);
      MulNonneg(1.0 - alpha, x - y);
    }
  }

  lemma RateBounds(fb: Feedback)
    requires fb.Valid()
    ensures 0.0 <= Rate(fb) <= 1.0
  {
    assert forall s: Strategy :: 0 <= fb.accepted.At(s) <= fb.tested.At(s);
    assert 0 <= fb.accepted.At(Mutate) <= fb.tested.At(Mutate) && 0 <= fb.accepted.At(Crossover) <= fb.tested.At(Crossover);
    assert 0 <= fb.accepted.At(ParameterPerturb) <= fb.tested.At(ParameterPerturb);
    assert 0 <= fb.accepted.At(RandomExplore) <= fb.tested.At(RandomExplore) && 0 <= fb.accepted.At(LlmMechanism) <= fb.tested.At(LlmMechanism);
    if fb.TotalTested() > 0 {
      DivBounds(fb.TotalAccepted() as real, fb.TotalTested() as real);
    }
  }

  lemma ShareWindow(p: Policy)
    requires p.Valid()
    ensures 0.0 <= p.minShare <= p.maxShare <= 1.0
  {
    forall group: seq<Strategy> ensures GroupSum(p.minRatios, group) >= 0.0 {
      forall i | 0 <= i < |group| ensures Along(p.minRatios, group)[i] >= 0.0 {
        assert p.minRatios.At(group[i]) >= 0.0;
      }
      SomePositive(Along(p.minRatios, group));
    }
  }

  lemma RoundStaysInPolicy(p: Policy, s: SearchState, sig: Signals, weights: PerStrategy<real>)
    requires GoodState(p, s) && GroupWeights(weights) && 0.0 <= sig.rate <= 1.0
    ensures GoodState(p, NextStateWith(p, s, sig, weights))
    ensures p.minShare <= NextStateWith(p, s, sig, weights).share <= p.maxShare
    ensures ShareFits(p, NextStateWith(p, s, sig, weights).share)
  {
    ShareWindow(p);
    if s.momentum.Some? {
      ConvexCombination(p.momentumAlpha, sig.rate, s.momentum.value);
    }
  }

  /** No round of feedback leaves the policy: momentum, step and weights stay in range, the share enters its window. */
  lemma RoundKeepsPolicy(p: Policy, s: SearchState, fb: Feedback)
    requires GoodState(p, s) && fb.Valid()
    ensures GoodState(p, NextState(p, s, fb))
    ensures p.minShare <= NextState(p, s, fb).share <= p.maxShare
    ensures ShareFits(p, NextState(p, s, fb).share)
    ensures EveryWeightPositive(s.weights) ==> EveryWeightPositive(NextState(p, s, fb).weights)
  {
    RateBounds(fb);
    TiltKeepsWeights(s.weights, fb, p.tiltSensitivity);
    RoundStaysInPolicy(p, s, SignalsOf(p, fb), TiltGroupWeights(s.weights, fb, p.tiltSensitivity));
  }

  /** One round moves the share by at most the policy's step, and downwards only on a good acceptance rate. */
  lemma ShareMovesGently(p: Policy, s: SearchState, sig: Signals, weights: PerStrategy<real>)
    requires GoodState(p, s) && p.minShare <= s.share <= p.maxShare
    ensures var next := NextStateWith(p, s, sig, weights);
      && s.share - p.maxAdjustStep <= next.share <= s.share + p.maxAdjustStep
      && (next.share < s.share ==> sig.tested && sig.rate >= p.exploitationThreshold)
      && (next.share > s.share ==> (sig.tested && next.streak >= p.stagnationRounds) || sig.repeated)
  {
  }

  /** With a feasible share and no zero weight every group can reach its bounds, so a quota exists. */
  lemma PositiveWeightsSuffice(p: Policy, s: SearchState)
    requires GoodState(p, s) && ShareFits(p, s.share) && EveryWeightPositive(s.weights)
    ensures QuotaFeasible(p, s)
  {
    forall group | group == EXPLORATION || group == EXPLOITATION
      ensures Sum(Lows(GroupItems(p, s.weights, group))) == GroupSum(p.minRatios, group)
      ensures Sum(Reaches(GroupItems(p, s.weights, group))) == GroupSum(p.maxRatios, group)
    {
      assert Lows(GroupItems(p, s.weights, group)) == Along(p.minRatios, group);
      assert Reaches(GroupItems(p, s.weights, group)) == Along(p.maxRatios, group);
    }
  }

  ghost function Run(p: Policy, s: SearchState, rounds: seq<Feedback>): SearchState {
    if rounds == [] then s else NextState(p, Run(p, s, rounds[..|rounds| - 1]), rounds[|rounds| - 1])
  }

  /** The quota solver never fails on a search started from positive base ratios summing to 1. */
  lemma {:induction false} QuotaAlwaysExists(p: Policy, base: PerStrategy<real>, rounds: seq<Feedback>)
    requires p.Valid() && BaseAccepted(p, base)
    requires GroupSum(base, EXPLORATION) + GroupSum(base, EXPLOITATION) == 1.0
    requires forall s: Strategy :: base.At(s) > 0.0
    requires forall i :: 0 <= i < |rounds| ==> rounds[i].Valid()
    ensures var s := Run(p, InitialSearch(p, base), rounds);
      && GoodState(p, s) && ShareFits(p, s.share) && EveryWeightPositive(s.weights)
      && s.rounds == |rounds| && QuotaFeasible(p, s)
  {
    InitialStateGood(p, base);
    BaseWeightsGood(p, base);
    if rounds != [] {
      var before := Run(p, InitialSearch(p, base), rounds[..|rounds| - 1]);
      QuotaAlwaysExists(p, base, rounds[..|rounds| - 1]);
      RoundKeepsPolicy(p, before, rounds[|rounds| - 1]);
    }
    PositiveWeightsSuffice(p, Run(p, InitialSearch(p, base), rounds));
  }

  // ---- When no feedback at all can make the quota fail.

  ghost predicate AllFeedbackValid(rounds: seq<Feedback>) {
    forall i :: 0 <= i < |rounds| ==> rounds[i].Valid()
  }

  /** Some feedback lowers the share: not if every round counts as repetitive and that alone outweighs a good acceptance rate. */
  predicate CanFall(p: Policy) {
    p.duplicateThreshold > 0.0 || p.duplicateShift < p.maxAdjustStep
  }

  /** Some feedback raises the share: not if every tested round counts as a success and repetition does not matter. */
  predicate CanRise(p: Policy) {
    p.exploitationThreshold > 0.0 || p.duplicateShift > 0.0
  }

  /** The first share fits, and so do the ends of the window that feedback can push it to. */
  ghost predicate NeverStranded(p: Policy, base: PerStrategy<real>) {
    && Fits(p, BaseWeights(base), base.random + base.llm)
    && (CanFall(p) ==> Fits(p, BaseWeights(base), p.minShare))
    && (CanRise(p) ==> Fits(p, BaseWeights(base), p.maxShare))
  }

  ghost predicate SameSupport(a: PerStrategy<real>, b: PerStrategy<real>) {
    forall s: Strategy :: a.At(s) == 0.0 <==> b.At(s) == 0.0
  }

  /** Only which weights are zero matters. */
  lemma SupportDecidesFit(p: Policy, a: PerStrategy<real>, b: PerStrategy<real>, share: real)
    requires SameSupport(a, b)
    ensures Fits(p, a, share) <==> Fits(p, b, share)
  {
    forall group: seq<Strategy>
      ensures Lows(GroupItems(p, a, group)) == Lows(GroupItems(p, b, group))
      ensures Reaches(GroupItems(p, a, group)) == Reaches(GroupItems(p, b, group))
    {
      assert forall i :: 0 <= i < |group| ==> (a.At(group[i]) == 0.0 <==> b.At(group[i]) == 0.0);
    }
  }

  /** The shares that fit form an interval. */
  lemma FitsBetween(p: Policy, weights: PerStrategy<real>, low: real, share: real, high: real)
    requires Fits(p, weights, low) && Fits(p, weights, high) && low <= share <= high
    ensures Fits(p, weights, share)
  {
  }

  lemma ShiftSigns(p: Policy, streak: int, fb: Feedback)
    requires p.Valid() && fb.Valid()
    ensures !CanFall(p) ==> Shift(p, streak, SignalsOf(p, fb)) >= 0.0
    ensures !CanRise(p) ==> Shift(p, streak, SignalsOf(p, fb)) <= 0.0
  {
    RateBounds(fb);
    if fb.generated != 0 {
      DivBounds(fb.duplicates as real, fb.generated as real);
    }
  }

  lemma {:induction false} RunKeepsSupport(p: Policy, base: PerStrategy<real>, rounds: seq<Feedback>)
    requires p.Valid() && BaseAccepted(p, base) && AllFeedbackValid(rounds)
    ensures var s := Run(p, InitialSearch(p, base), rounds); GoodState(p, s) && SameSupport(s.weights, BaseWeights(base))
  {
    InitialStateGood(p, base);
    if rounds != [] {
      RunKeepsSupport(p, base, rounds[..|rounds| - 1]);
      var before := Run(p, InitialSearch(p, base), rounds[..|rounds| - 1]);
      RoundKeepsPolicy(p, before, rounds[|rounds| - 1]);
      TiltKeepsWeights(before.weights, rounds[|rounds| - 1], p.tiltSensitivity);
    }
  }

  /** One of the shares `NeverStranded` speaks of. */
  predicate Extreme(p: Policy, base: PerStrategy<real>, share: real) {
    share == base.random + base.llm || (CanFall(p) && share == p.minShare) || (CanRise(p) && share == p.maxShare)
  }

  /** A share between two extremes stays between two extremes. */
  lemma StaysBetween(p: Policy, base: PerStrategy<real>, low0: real, high0: real, share: real, shift: real) returns (low: real, high: real)
    requires p.minShare <= p.maxShare && Extreme(p, base, low0) && Extreme(p, base, high0) && low0 <= share <= high0
    requires (CanFall(p) || CanRise(p)) && (!CanFall(p) ==> shift >= 0.0) && (!CanRise(p) ==> shift <= 0.0)
    ensures Extreme(p, base, low) && Extreme(p, base, high) && low <= Clamp(share + shift, p.minShare, p.maxShare) <= high
  {
    low := if CanFall(p) && p.minShare < low0 then p.minShare else low0;
    high := if CanRise(p) && p.maxShare > high0 then p.maxShare else high0;
    low := if CanRise(p) && p.maxShare < low then p.maxShare else low;
    high := if CanFall(p) && p.minShare > high then p.minShare else high;
  }

  /** Every share of a run lies between two of these. */
  lemma {:induction false} RunStaysBetween(p: Policy, base: PerStrategy<real>, rounds: seq<Feedback>) returns (low: real, high: real)
    requires p.Valid() && BaseAccepted(p, base) && AllFeedbackValid(rounds)
    ensures Extreme(p, base, low) && Extreme(p, base, high)
    ensures low <= Run(p, InitialSearch(p, base), rounds).share <= high
  {
    low, high := base.random + base.llm, base.random + base.llm;
    if rounds != [] {
      var before, fb := Run(p, InitialSearch(p, base), rounds[..|rounds| - 1]), rounds[|rounds| - 1];
      low, high := RunStaysBetween(p, base, rounds[..|rounds| - 1]);
      NextMoves(p, before, fb);
      var streak := NextStreak(before.streak, SignalsOf(p, fb));
      ShiftSigns(p, streak, fb);
      low, high := StaysBetween(p, base, low, high, before.share, Shift(p, streak, SignalsOf(p, fb)));
    }
  }

  /** A round in which the one definition tested is accepted and nothing repeats. */
  function Success(): Feedback {
    Feedback(PerStrategy(1, 0, 0, 0, 0), PerStrategy(1, 0, 0, 0, 0), 0, 0)
  }

  /** A round of nothing but repetition, in which the one definition tested, if any, is refused. */
  function Failure(tested: bool): Feedback {
    Feedback(PerStrategy(if tested then 1 else 0, 0, 0, 0, 0), PerStrategy(0, 0, 0, 0, 0), 1, 1)
  }

  function Repeated(fb: Feedback, n: nat): (rounds: seq<Feedback>)
    ensures |rounds| == n
  {
    seq(n, i => fb)
  }

  lemma RunRepeated(p: Policy, s: SearchState, fb: Feedback, n: nat)
    ensures Run(p, s, Repeated(fb, n + 1)) == NextState(p, Run(p, s, Repeated(fb, n)), fb)
  {
    assert Repeated(fb, n + 1)[..n] == Repeated(fb, n);
  }

  function Max(x: real, y: real): real { if x < y then y else x }
  function Min(x: real, y: real): real { if x < y then x else y }

  /** By how much a success lowers the share, inside its window. */
  function FallStep(p: Policy): real {
    if p.duplicateThreshold > 0.0 then p.maxAdjustStep else p.maxAdjustStep - p.duplicateShift
  }

  /** Share and streak after a round depend on its signals only. */
  ghost predicate Moves(p: Policy, s: SearchState, sig: Signals, next: SearchState) {
    next.streak == NextStreak(s.streak, sig) && next.share == Clamp(s.share + Shift(p, next.streak, sig), p.minShare, p.maxShare)
  }

  lemma NextMoves(p: Policy, s: SearchState, fb: Feedback)
    ensures Moves(p, s, SignalsOf(p, fb), NextState(p, s, fb))
  {
  }

  lemma SuccessSignals(p: Policy)
    requires p.Valid()
    ensures SignalsOf(p, Success()) == Signals(true, true, 1.0, p.duplicateThreshold == 0.0)
  {
    assert Rate(Success()) == 1.0 && Success().DuplicateRate() == 0.0;
  }

  lemma FailureSignals(p: Policy, tested: bool)
    requires p.Valid()
    ensures SignalsOf(p, Failure(tested)) == Signals(tested, false, 0.0, true)
  {
    assert Rate(Failure(tested)) == 0.0 && Failure(tested).DuplicateRate() == 1.0;
  }

  lemma SuccessShift(p: Policy, s: SearchState, next: SearchState)
    requires p.Valid() && CanFall(p) && Moves(p, s, Signals(true, true, 1.0, p.duplicateThreshold == 0.0), next)
    ensures FallStep(p) > 0.0 && next.share == Clamp(s.share - FallStep(p), p.minShare, p.maxShare)
  {
  }

  /** By how much a failure raises the share once the search counts as stagnant. */
  function RiseStep(p: Policy): real {
    if p.exploitationThreshold > 0.0 then p.maxAdjustStep else Min(p.duplicateShift, p.maxAdjustStep)
  }

  lemma FailureShift(p: Policy, s: SearchState, next: SearchState)
    requires p.Valid() && CanRise(p) && Moves(p, s, Signals(p.exploitationThreshold > 0.0, false, 0.0, true), next)
    ensures RiseStep(p) > 0.0 && p.minShare <= next.share <= p.maxShare
    ensures p.exploitationThreshold > 0.0 ==> next.streak == s.streak + 1
    ensures p.exploitationThreshold == 0.0 || next.streak >= p.stagnationRounds ==> next.share >= Min(p.maxShare, s.share + RiseStep(p))
  {
  }

  /** How far `n` rounds of the same kind carry the share. */
  function Travel(step: real, n: nat): real { step * n as real }

  lemma TravelFar(step: real, distance: real) returns (n: nat)
    requires step > 0.0
    ensures n >= 1 && Travel(step, n) >= distance
  {
    if distance <= 0.0 {
      MulNonneg(step, 1.0);
      return 1;
    }
    n := (distance / step).Floor + 1;
    assert distance / step >= 0.0 by { DivideSign(distance, step); }
    MulNonneg(step, n as real - distance / step);
    assert step * (n as real - distance / step) == Travel(step, n) - step * (distance / step);
    assert step * (distance / step) == distance;
  }

  lemma TravelStep(step: real, n: nat)
    ensures Travel(step, n + 1) == Travel(step, n) + step
  {
  }

  /** After `n` successes. */
  ghost predicate Lowered(p: Policy, n: nat, t: SearchState) {
    n >= 1 ==> p.minShare <= t.share <= Max(p.minShare, p.maxShare - Travel(FallStep(p), n - 1))
  }

  lemma LoweredFurther(p: Policy, n: nat, t: SearchState, next: SearchState)
    requires p.Valid() && CanFall(p) && Lowered(p, n, t) && Moves(p, t, Signals(true, true, 1.0, p.duplicateThreshold == 0.0), next)
    ensures Lowered(p, n + 1, next)
  {
    SuccessShift(p, t, next);
    if n >= 1 {
      TravelStep(FallStep(p), n - 1);
    }
  }

  lemma {:induction false} SuccessesLower(p: Policy, s: SearchState, fb: Feedback, n: nat)
    requires p.Valid() && CanFall(p) && SignalsOf(p, fb) == Signals(true, true, 1.0, p.duplicateThreshold == 0.0)
    ensures Lowered(p, n, Run(p, s, Repeated(fb, n)))
  {
    if n >= 1 {
      SuccessesLower(p, s, fb, n - 1);
      RunRepeated(p, s, fb, n - 1);
      NextMoves(p, Run(p, s, Repeated(fb, n - 1)), fb);
      LoweredFurther(p, n - 1, Run(p, s, Repeated(fb, n - 1)), Run(p, s, Repeated(fb, n)));
    }
  }

  /** After `n` failures. */
  ghost predicate Raised(p: Policy, n: nat, t: SearchState) {
    && (p.exploitationThreshold > 0.0 ==> t.streak >= n)
    && (n >= 1 ==> p.minShare <= t.share <= p.maxShare)
    && (n > p.stagnationRounds > 0 ==> t.share >= Min(p.maxShare, p.minShare + Travel(RiseStep(p), n - p.stagnationRounds - 1)))
  }

  lemma RaisedFurther(p: Policy, n: nat, t: SearchState, next: SearchState)
    requires p.Valid() && CanRise(p) && Raised(p, n, t) && Moves(p, t, Signals(p.exploitationThreshold > 0.0, false, 0.0, true), next)
    ensures Raised(p, n + 1, next)
  {
    FailureShift(p, t, next);
    if n > p.stagnationRounds {
      TravelStep(RiseStep(p), n - p.stagnationRounds - 1);
    }
  }

  lemma {:induction false} FailuresRaise(p: Policy, s: SearchState, fb: Feedback, n: nat)
    requires p.Valid() && CanRise(p) && s.streak >= 0 && SignalsOf(p, fb) == Signals(p.exploitationThreshold > 0.0, false, 0.0, true)
    ensures Raised(p, n, Run(p, s, Repeated(fb, n)))
  {
    if n >= 1 {
      FailuresRaise(p, s, fb, n - 1);
      RunRepeated(p, s, fb, n - 1);
      NextMoves(p, Run(p, s, Repeated(fb, n - 1)), fb);
      RaisedFurther(p, n - 1, Run(p, s, Repeated(fb, n - 1)), Run(p, s, Repeated(fb, n)));
    }
  }

  ghost predicate Reachable(p: Policy, base: PerStrategy<real>, share: real) {
    exists rounds :: AllFeedbackValid(rounds) && Run(p, InitialSearch(p, base), rounds).share == share
  }

  lemma MinShareReached(p: Policy, base: PerStrategy<real>, fb: Feedback)
    requires p.Valid() && CanFall(p) && fb.Valid() && SignalsOf(p, fb) == Signals(true, true, 1.0, p.duplicateThreshold == 0.0)
    ensures Reachable(p, base, p.minShare)
  {
    assert FallStep(p) > 0.0;
    var n := TravelFar(FallStep(p), p.maxShare - p.minShare);
    SuccessesLower(p, InitialSearch(p, base), fb, n + 1);
    assert AllFeedbackValid(Repeated(fb, n + 1));
  }

  lemma MaxShareReached(p: Policy, base: PerStrategy<real>, fb: Feedback)
    requires p.Valid() && CanRise(p) && fb.Valid() && SignalsOf(p, fb) == Signals(p.exploitationThreshold > 0.0, false, 0.0, true)
    ensures Reachable(p, base, p.maxShare)
  {
    var n := TravelFar(RiseStep(p), p.maxShare - p.minShare);
    FailuresRaise(p, InitialSearch(p, base), fb, n + p.stagnationRounds + 1);
    assert AllFeedbackValid(Repeated(fb, n + p.stagnationRounds + 1));
  }

  /** The ends of the window are reached, if anything moves the share towards them. */
  lemma WindowReached(p: Policy, base: PerStrategy<real>)
    requires p.Valid()
    ensures Reachable(p, base, base.random + base.llm)
    ensures CanFall(p) ==> Reachable(p, base, p.minShare)
    ensures CanRise(p) ==> Reachable(p, base, p.maxShare)
  {
    assert Run(p, InitialSearch(p, base), []).share == base.random + base.llm;
    FeedbackValid();
    SuccessSignals(p);
    FailureSignals(p, p.exploitationThreshold > 0.0);
    if CanFall(p) {
      MinShareReached(p, base, Success());
    }
    if CanRise(p) {
      MaxShareReached(p, base, Failure(p.exploitationThreshold > 0.0));
    }
  }

  lemma FeedbackValid()
    ensures Success().Valid() && forall tested :: Failure(tested).Valid()
  {
  }

  /** No feedback can ever make the quota fail exactly when the first share fits and so do the ends it can be pushed to,
      given which base ratios are zero. */
  lemma QuotaNeverFailsExactly(p: Policy, base: PerStrategy<real>)
    requires p.Valid() && BaseAccepted(p, base)
    ensures NeverStranded(p, base) <==>
      forall rounds :: AllFeedbackValid(rounds) ==> QuotaFeasible(p, Run(p, InitialSearch(p, base), rounds))
  {
    var weights := BaseWeights(base);
    if NeverStranded(p, base) {
      forall rounds | AllFeedbackValid(rounds) ensures QuotaFeasible(p, Run(p, InitialSearch(p, base), rounds)) {
        var s := Run(p, InitialSearch(p, base), rounds);
        var low, high := RunStaysBetween(p, base, rounds);
        RunKeepsSupport(p, base, rounds);
        FitsBetween(p, weights, low, s.share, high);
        SupportDecidesFit(p, s.weights, weights, s.share);
      }
    }
    if forall rounds :: AllFeedbackValid(rounds) ==> QuotaFeasible(p, Run(p, InitialSearch(p, base), rounds)) {
      WindowReached(p, base);
      forall share | Extreme(p, base, share) ensures Fits(p, weights, share) {
        var rounds :| AllFeedbackValid(rounds) && Run(p, InitialSearch(p, base), rounds).share == share;
        var s := Run(p, InitialSearch(p, base), rounds);
        RunKeepsSupport(p, base, rounds);
        SupportDecidesFit(p, s.weights, weights, share);
      }
    }
  }

  class FactorSearchGovernor {
    const policy: Policy
    var state: SearchState

    ghost predicate Valid()
      reads this
    {
      GoodState(policy, state)
    }

    constructor (policy: Policy, base: PerStrategy<real>)
      requires policy.Valid() && BaseAccepted(policy, base)
      ensures Valid() && this.policy == policy && state == InitialSearch(policy, base)
    {
      this.policy := policy;
      state := SearchState(0, None, base.random + base.llm, policy.minWindowStep, 0, BaseWeights(base));
      InitialStateGood(policy, base);
    }

    method Observe(fb: Feedback) returns (s: SearchState)
      requires Valid() && fb.Valid()
      modifies this
      ensures Valid() && s == state == NextState(policy, old(state), fb)
    {
      RoundKeepsPolicy(policy, state, fb);
      var sig := Gather(fb);
      s := Move(sig, TiltGroupWeights(state.weights, fb, policy.tiltSensitivity));
      state := s;
    }

    /** What the feedback says. */
    method Gather(fb: Feedback) returns (sig: Signals)
      ensures sig == SignalsOf(policy, fb)
    {
      var tested, accepted, rate := fb.TotalTested(), fb.TotalAccepted(), 0.0;
      if tested > 0 {
        rate := accepted as real / tested as real;
      }
      sig := Signals(tested > 0, accepted > 0, rate, fb.DuplicateRate() >= policy.duplicateThreshold);
    }

    /** Momentum and streak first, then share and step from them. */
    method Move(sig: Signals, weights: PerStrategy<real>) returns (s: SearchState)
      ensures s == NextStateWith(policy, state, sig, weights)
    {
      var momentum, streak := state.momentum, state.streak;
      if sig.tested {
        momentum := if momentum.None? then Some(sig.rate) else Some(Blend(policy.momentumAlpha, sig.rate, momentum.value));
        streak := if sig.accepted then 0 else streak + 1;
      }
      var share := AdjustShare(state.share, streak, sig);
      var step := AdjustStep(state.windowStep, state.momentum, momentum, streak);
      s := SearchState(state.rounds + 1, momentum, share, step, streak, weights);
    }

    /** Accumulate the three shifts, clamp the step, clamp the share. */
    method AdjustShare(share0: real, streak: int, sig: Signals) returns (share: real)
      ensures share == Clamp(share0 + Shift(policy, streak, sig), policy.minShare, policy.maxShare)
    {
      var shift := 0.0;
      if sig.tested && sig.rate >= policy.exploitationThreshold {
        shift := shift - policy.maxAdjustStep;
      }
      if sig.tested && streak >= policy.stagnationRounds {
        shift := shift + policy.maxAdjustStep;
      }
      if sig.repeated {
        shift := shift + policy.duplicateShift;
      }
      shift := Clamp(shift, -policy.maxAdjustStep, policy.maxAdjustStep);
      share := Clamp(share0 + shift, policy.minShare, policy.maxShare);
    }

    method AdjustStep(step0: int, previous: Option<real>, momentum: Option<real>, streak: int) returns (step: int)
      ensures step == NextStep(policy, step0, previous, momentum, streak)
    {
      step := step0;
      if momentum.Some? {
        if momentum.value >= policy.exploitationThreshold && (previous.None? || momentum.value >= previous.value) {
          step := policy.minWindowStep;
        } else if streak >= policy.stagnationRounds || (previous.Some? && momentum.value < previous.value) {
          step := if step + 1 <= policy.maxWindowStep then step + 1 else policy.maxWindowStep;
        }
      }
    }

    /** `None` is the solver's error. A quota, when there is one, respects every bound and sums to 1. */
    method CurrentQuota() returns (r: Option<PerStrategy<real>>)
      requires Valid()
      ensures r.Some? <==> QuotaFeasible(policy, state)
      ensures r.Some? ==>
        && (forall s: Strategy :: policy.minRatios.At(s) <= r.value.At(s) <= policy.maxRatios.At(s))
        && GroupSum(r.value, EXPLORATION) == state.share
        && GroupSum(r.value, EXPLORATION) + GroupSum(r.value, EXPLOITATION) == 1.0
      ensures r.Some? ==> FollowsWeights(policy, state.weights, state.share, r.value)
    {
      r := None;
      var explore := GroupQuota(EXPLORATION, state.share);
      if explore.None? {
        return;
      }
      var exploreSum := SumOf(explore.value);
      var rest := 1.0 - exploreSum;
      var exploit := GroupQuota(EXPLOITATION, rest);
      if exploit.None? {
        return;
      }
      JoinedBounds(policy, explore.value, exploit.value);
      JoinedParts(policy, state.weights, state.share, rest, explore.value, exploit.value);
      r := Some(Joined(explore.value, exploit.value));
    }

    /** One group's part of the quota. */
    method GroupQuota(group: seq<Strategy>, total: real) returns (r: Option<seq<real>>)
      requires Valid() && (group == EXPLORATION || group == EXPLOITATION)
      ensures r.Some? <==> Feasible(total, GroupItems(policy, state.weights, group))
      ensures r.Some? ==> |r.value| == |group| && Sum(r.value) == total
      ensures r.Some? ==> forall i :: 0 <= i < |group| ==> Bounded(policy, group, i, r.value[i])
      ensures r.Some? && WeightsFit(policy, state.weights, group, total) ==> Proportional(state.weights, group, total, r.value)
    {
      var items := GroupItems(policy, state.weights, group);
      GroupItemsValid(policy, state, group);
      WeightsFitItems(policy, state.weights, group, total);
      r := BoundedProportional(total, items);
      if r.Some? {
        forall i | 0 <= i < |group| ensures Bounded(policy, group, i, r.value[i]) {
          assert items[i].low <= r.value[i] <= Reach(items[i]);
        }
      }
    }
  }

  /** The two groups' parts as one dictionary. */
  function Joined(explore: seq<real>, exploit: seq<real>): PerStrategy<real>
    requires |explore| == 2 && |exploit| == 3
  {
    PerStrategy(exploit[0], exploit[1], exploit[2], explore[0], explore[1])
  }

  lemma JoinedBounds(p: Policy, explore: seq<real>, exploit: seq<real>)
    requires |explore| == 2 && |exploit| == 3
    requires forall i :: 0 <= i < 2 ==> Bounded(p, EXPLORATION, i, explore[i])
    requires forall i :: 0 <= i < 3 ==> Bounded(p, EXPLOITATION, i, exploit[i])
    ensures var q := Joined(explore, exploit);
      && GroupSum(q, EXPLORATION) == Sum(explore) && GroupSum(q, EXPLOITATION) == Sum(exploit)
      && forall s: Strategy :: p.minRatios.At(s) <= q.At(s) <= p.maxRatios.At(s)
  {
    var q := Joined(explore, exploit);
    assert Along(q, EXPLORATION) == explore && Along(q, EXPLOITATION) == exploit;
    forall s: Strategy ensures p.minRatios.At(s) <= q.At(s) <= p.maxRatios.At(s) {
      match s
      case Mutate => assert Bounded(p, EXPLOITATION, 0, q.At(s));
      case Crossover => assert Bounded(p, EXPLOITATION, 1, q.At(s));
      case ParameterPerturb => assert Bounded(p, EXPLOITATION, 2, q.At(s));
      case RandomExplore => assert Bounded(p, EXPLORATION, 0, q.At(s));
      case LlmMechanism => assert Bounded(p, EXPLORATION, 1, q.At(s));
    }
  }

  /** Every strategy of the group has its weight's part of the total. */
  ghost predicate Proportional(weights: PerStrategy<real>, group: seq<Strategy>, total: real, parts: seq<real>) {
    |parts| == |group| && forall i :: 0 <= i < |group| ==> parts[i] == Part(total, weights.At(group[i]))
  }

  /** A group in which no bound is in the way is divided in proportion to its weights. */
  ghost predicate FollowsWeights(p: Policy, weights: PerStrategy<real>, share: real, q: PerStrategy<real>) {
    && (WeightsFit(p, weights, EXPLORATION, share) ==>
          q.random == Part(share, weights.random) && q.llm == Part(share, weights.llm))
    && (WeightsFit(p, weights, EXPLOITATION, 1.0 - share) ==>
          && q.mutate == Part(1.0 - share, weights.mutate) && q.crossover == Part(1.0 - share, weights.crossover)
          && q.perturb == Part(1.0 - share, weights.perturb))
  }

  lemma JoinedParts(p: Policy, weights: PerStrategy<real>, share: real, rest: real, explore: seq<real>, exploit: seq<real>)
    requires |explore| == 2 && |exploit| == 3 && rest == 1.0 - share
    requires WeightsFit(p, weights, EXPLORATION, share) ==> Proportional(weights, EXPLORATION, share, explore)
    requires WeightsFit(p, weights, EXPLOITATION, rest) ==> Proportional(weights, EXPLOITATION, rest, exploit)
    ensures FollowsWeights(p, weights, share, Joined(explore, exploit))
  {
    assert EXPLORATION[0] == RandomExplore && EXPLORATION[1] == LlmMechanism;
    assert EXPLOITATION[0] == Mutate && EXPLOITATION[1] == Crossover && EXPLOITATION[2] == ParameterPerturb;
  }

  predicate Bounded(p: Policy, group: seq<Strategy>, i: nat, x: real)
    requires i < |group|
  {
    p.minRatios.At(group[i]) <= x <= p.maxRatios.At(group[i])
  }

  function Part(total: real, weight: real): real { total * weight }

  /** Handing out `total` in proportion to the weights of a group violates no bound. */
  ghost predicate WeightsFit(p: Policy, weights: PerStrategy<real>, group: seq<Strategy>, total: real) {
    forall i :: 0 <= i < |group| ==> Bounded(p, group, i, Part(total, weights.At(group[i])))
  }

  lemma ShareOfWhole(total: real, item: Item)
    ensures Share(total, item, 1.0) == Part(total, item.weight)
  {
  }

  lemma WeightsFitItems(p: Policy, weights: PerStrategy<real>, group: seq<Strategy>, total: real)
    requires GroupSum(weights, group) == 1.0
    ensures Sum(Weights(GroupItems(p, weights, group))) == 1.0
    ensures WeightsFit(p, weights, group, total) ==> ProportionalFits(total, GroupItems(p, weights, group))
    ensures forall i :: 0 <= i < |group| ==> Share(total, GroupItems(p, weights, group)[i], 1.0) == Part(total, weights.At(group[i]))
  {
    var items := GroupItems(p, weights, group);
    assert Weights(items) == Along(weights, group);
    forall i | 0 <= i < |group| ensures Share(total, items[i], 1.0) == Part(total, weights.At(group[i])) {
      ShareOfWhole(total, items[i]);
    }
    if WeightsFit(p, weights, group, total) {
      forall i | 0 <= i < |group| ensures items[i].low <= Share(total, items[i], 1.0) <= items[i].high {
        assert Bounded(p, group, i, Part(total, weights.At(group[i])));
      }
    }
  }

  lemma GroupItemsValid(p: Policy, s: SearchState, group: seq<Strategy>)
    requires GoodState(p, s) && (group == EXPLORATION || group == EXPLOITATION)
    ensures ValidItems(GroupItems(p, s.weights, group))
  {
    assert Weights(GroupItems(p, s.weights, group)) == Along(s.weights, group);
    forall i | 0 <= i < |group| ensures s.weights.At(group[i]) >= 0.0 && 0.0 <= p.minRatios.At(group[i]) <= p.maxRatios.At(group[i]) {
    }
  }

  /**
   * A base ratio of zero is accepted but strands its strategy: here the policy is valid and the base
   * is within bounds and sums to 1, yet one stagnant round leaves no quota. So positive ratios are needed.
   */
  lemma ZeroBaseRatioCanFail() returns (p: Policy, base: PerStrategy<real>, fb: Feedback)
    ensures p.Valid() && BaseAccepted(p, base) && fb.Valid()
    ensures GroupSum(base, EXPLORATION) + GroupSum(base, EXPLOITATION) == 1.0
    ensures !QuotaFeasible(p, NextState(p, InitialSearch(p, base), fb))
  {
    p, base := StrandingPolicy();
    fb := Feedback(PerStrategy(1, 0, 0, 0, 0), PerStrategy(0, 0, 0, 0, 0), 0, 1);
    var s0 := InitialSearch(p, base);
    BaseWeightsGood(p, base);
    TiltKeepsWeights(s0.weights, fb, p.tiltSensitivity);
    StrandedAfterRound(p, base, fb, TiltGroupWeights(s0.weights, fb, p.tiltSensitivity));
  }

  lemma StrandingPolicy() returns (p: Policy, base: PerStrategy<real>)
    ensures p.Valid() && BaseAccepted(p, base)
    ensures GroupSum(base, EXPLORATION) + GroupSum(base, EXPLOITATION) == 1.0
    ensures base.random == 0.0 && base.llm == 0.35 && BaseWeights(base).random == 0.0
    ensures p.minRatios.random == 0.0 && p.maxRatios.llm == 0.35 && p.minRatios.llm == 0.05
    ensures p.maxAdjustStep == 0.08 && p.stagnationRounds == 1 && p.exploitationThreshold == 0.3
    ensures p.duplicateThreshold == 0.4 && p.minShare == 0.2 && p.maxShare == 0.55
  {
    var low, high := PerStrategy(0.1, 0.1, 0.05, 0.0, 0.05), PerStrategy(0.4, 0.4, 0.3, 0.35, 0.35);
    p := Policy(low, high, 0.08, 0.2, 0.55, 0.5, 0.3, 0.4, 0.05, 1, 1, 3, 0.5);
    base := PerStrategy(0.25, 0.25, 0.15, 0.0, 0.35);
    GroupSums(low);
    GroupSums(high);
    GroupSums(base);
  }

  lemma StrandedAfterRound(p: Policy, base: PerStrategy<real>, fb: Feedback, weights: PerStrategy<real>)
    requires base.random == 0.0 && base.llm == 0.35 && weights.At(RandomExplore) == 0.0
    requires p.minRatios.random == 0.0 && p.maxRatios.llm == 0.35 && p.minRatios.llm == 0.05
    requires p.maxAdjustStep == 0.08 && p.stagnationRounds == 1 && p.exploitationThreshold == 0.3
    requires p.duplicateThreshold == 0.4 && p.minShare == 0.2 && p.maxShare == 0.55
    requires fb == Feedback(PerStrategy(1, 0, 0, 0, 0), PerStrategy(0, 0, 0, 0, 0), 0, 1)
    ensures !QuotaFeasible(p, NextStateWith(p, InitialSearch(p, base), SignalsOf(p, fb), weights))
  {
    assert SignalsOf(p, fb) == Signals(true, false, 0.0, false);
    StrandedStrategy(p, NextStateWith(p, InitialSearch(p, base), SignalsOf(p, fb), weights));
  }

  lemma StrandedStrategy(p: Policy, s: SearchState)
    requires s.share == 0.43 && s.weights.At(RandomExplore) == 0.0
    requires p.minRatios.random == 0.0 && p.maxRatios.llm == 0.35 && p.minRatios.llm <= 0.35
    ensures !QuotaFeasible(p, s)
  {
    var items := GroupItems(p, s.weights, EXPLORATION);
    assert Reaches(items) == [Reach(items[0]), Reach(items[1])];
    SumOfTwo(Reach(items[0]), Reach(items[1]));
  }
}
