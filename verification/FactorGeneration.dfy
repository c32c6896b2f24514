// domain_sdk/factor_generation.py: the largest-remainder split of a batch, the generation operators on expression
// trees, and the parent pool. Random draws are nondeterministic choices; the proposer's answer is an input.

/** `GenerationQuota.allocate`, over a list of shares. */
module LargestRemainder {
  import opened Wrappers
  import opened Sorting
  import opened RealArithmetic
  import opened RealSums
  import opened FactorStatistics

  function Shares(total: nat, ratios: seq<real>): (s: seq<real>)
    ensures |s| == |ratios| && forall i :: 0 <= i < |s| ==> s[i] == Times(total as real, ratios[i])
  {
    seq(|ratios|, i requires 0 <= i < |ratios| => Times(total as real, ratios[i]))
  }

  /** `int(x)` of a non-negative share. */
  function Floors(shares: seq<real>): (b: seq<int>)
    ensures |b| == |shares| && forall i :: 0 <= i < |b| ==> b[i] == shares[i].Floor
  {
    seq(|shares|, i requires 0 <= i < |shares| => shares[i].Floor)
  }

  function Remainders(shares: seq<real>): (r: seq<real>)
    ensures |r| == |shares|
    ensures forall i :: 0 <= i < |r| ==> r[i] == shares[i] - shares[i].Floor as real && 0.0 <= r[i] < 1.0
  {
    seq(|shares|, i requires 0 <= i < |shares| => shares[i] - shares[i].Floor as real)
  }

  function SumInts(s: seq<int>): int {
    if s == [] then 0 else s[0] + SumInts(s[1..])
  }

  lemma {:induction false} SumIntsUpdate(s: seq<int>, i: nat, x: int)
    requires i < |s|
    ensures SumInts(s[i := x]) == SumInts(s) - s[i] + x
  {
    if i == 0 {
      assert s[i := x][1..] == s[1..];
    } else {
      SumIntsUpdate(s[1..], i - 1, x);
      assert s[i := x][1..] == s[1..][i - 1 := x];
    }
  }

  /** What rounding down leaves over is the sum of the remainders. */
  lemma {:induction false} LeftOver(shares: seq<real>)
    ensures Sum(shares) == SumInts(Floors(shares)) as real + Sum(Remainders(shares))
  {
    if shares != [] {
      LeftOver(shares[1..]);
      assert Floors(shares)[1..] == Floors(shares[1..]);
      assert Remainders(shares)[1..] == Remainders(shares[1..]);
    }
  }

  lemma {:induction false} ScaledSum(total: nat, ratios: seq<real>)
    ensures Sum(Shares(total, ratios)) == Times(total as real, Sum(ratios))
  {
    if ratios == [] {
      assert Times(total as real, 0.0) == 0.0;
    } else {
      ScaledSum(total, ratios[1..]);
      assert Shares(total, ratios)[1..] == Shares(total, ratios[1..]);
      assert Times(total as real, ratios[0] + Sum(ratios[1..])) == Times(total as real, ratios[0]) + Times(total as real, Sum(ratios[1..]));
    }
  }

  /** The sort key: larger remainders first, declaration order among equals. */
  predicate NotAfter(remainders: seq<real>, i: int, j: int) {
    if 0 <= i < |remainders| && 0 <= j < |remainders| then
      remainders[i] > remainders[j] || (remainders[i] == remainders[j] && i <= j)
    else if 0 <= i < |remainders| then true
    else if 0 <= j < |remainders| then false
    else i <= j
  }

  function ByRemainder(remainders: seq<real>): (int, int) -> bool {
    (i, j) => NotAfter(remainders, i, j)
  }

  lemma ByRemainderTotal(remainders: seq<real>)
    ensures TotalPreorder(ByRemainder(remainders))
  {
  }

  function RoundingOrder(remainders: seq<real>): seq<int> {
    Sort(Range(|remainders|), ByRemainder(remainders))
  }

  lemma RoundingOrderSorted(remainders: seq<real>)
    ensures Permutes(RoundingOrder(remainders), |remainders|)
    ensures forall i, j :: 0 <= i < j < |remainders| ==> NotAfter(remainders, RoundingOrder(remainders)[i], RoundingOrder(remainders)[j])
  {
    var le, order := ByRemainder(remainders), RoundingOrder(remainders);
    SortPermutes(|remainders|, le);
    ByRemainderTotal(remainders);
    SortIsSorted(Range(|remainders|), le);
    forall i, j | 0 <= i < j < |remainders| ensures NotAfter(remainders, order[i], order[j]) {
      assert le(order[i], order[j]);
    }
  }

  lemma {:induction false} SumBelowOnes(s: seq<real>)
    requires forall i :: 0 <= i < |s| ==> s[i] < 1.0
    ensures Sum(s) <= |s| as real && (s != [] ==> Sum(s) < |s| as real)
  {
    if s != [] {
      SumBelowOnes(s[1..]);
    }
  }

  lemma {:induction false} SumOfZeros(s: seq<real>)
    requires forall i :: 0 <= i < |s| ==> s[i] <= 0.0
    ensures Sum(s) <= 0.0
  {
    if s != [] {
      SumOfZeros(s[1..]);
    }
  }

  lemma {:induction false} SumNonneg(s: seq<real>)
    requires forall i :: 0 <= i < |s| ==> s[i] >= 0.0
    ensures Sum(s) >= 0.0
  {
    if s != [] {
      SumNonneg(s[1..]);
    }
  }

  /** Nobody rounded up had a remainder of zero: the leftover units are fewer than the positive remainders. */
  lemma RoundedUpIsPositive(remainders: seq<real>, leftover: nat, k: nat)
    requires forall i :: 0 <= i < |remainders| ==> 0.0 <= remainders[i] < 1.0
    requires Sum(remainders) == leftover as real && k < leftover && k < |remainders|
    ensures 0 <= RoundingOrder(remainders)[k] < |remainders| && remainders[RoundingOrder(remainders)[k]] > 0.0
  {
    var order := RoundingOrder(remainders);
    RoundingOrderSorted(remainders);
    var picked := Picked(remainders, order);
    PermutedValues(remainders, order);
    SumPermute(picked, remainders);
    if remainders[order[k]] <= 0.0 {
      forall j | k <= j < |picked| ensures picked[j] <= 0.0 {
        if j > k {
          assert NotAfter(remainders, order[k], order[j]);
        }
      }
      assert picked == picked[..k] + picked[k..];
      SumConcat(picked[..k], picked[k..]);
      SumBelowOnes(picked[..k]);
      SumOfZeros(picked[k..]);
    }
  }

  ghost predicate RoundedUp(total: nat, ratios: seq<real>, counts: seq<int>, i: int)
    requires |counts| == |ratios| && 0 <= i < |ratios|
  {
    counts[i] == Shares(total, ratios)[i].Floor + 1
  }

  /** Floor or ceiling of every share, adding up to the total, with only the largest remainders rounded up. */
  ghost predicate IsAllocation(total: nat, ratios: seq<real>, counts: seq<int>) {
    var shares := Shares(total, ratios);
    var remainders := Remainders(shares);
    && |counts| == |ratios| && SumInts(counts) == total
    && (forall i :: 0 <= i < |counts| ==> counts[i] == shares[i].Floor || RoundedUp(total, ratios, counts, i))
    && (forall i :: 0 <= i < |counts| && RoundedUp(total, ratios, counts, i) ==> remainders[i] > 0.0)
    && (forall i, j :: 0 <= i < |counts| && 0 <= j < |counts| && RoundedUp(total, ratios, counts, i) && !RoundedUp(total, ratios, counts, j) ==>
          remainders[i] > remainders[j] || (remainders[i] == remainders[j] && i < j))
  }

  ghost predicate RatiosOk(ratios: seq<real>) {
    Sum(ratios) == 1.0 && forall i :: 0 <= i < |ratios| ==> 0.0 <= ratios[i] <= 1.0
  }

  lemma LeftoverFacts(total: nat, ratios: seq<real>)
    requires RatiosOk(ratios)
    ensures var shares := Shares(total, ratios); var leftover := total - SumInts(Floors(shares));
      0 <= leftover <= |ratios| && Sum(Remainders(shares)) == leftover as real
  {
    var shares := Shares(total, ratios);
    ScaledSum(total, ratios);
    assert Times(total as real, 1.0) == total as real;
    LeftOver(shares);
    SumNonneg(Remainders(shares));
    SumBelowOnes(Remainders(shares));
  }

  /** The floors with one more at the first `k` positions of the rounding order. */
  ghost predicate Bumped(base: seq<int>, order: seq<int>, k: nat, counts: seq<int>)
    requires k <= |order|
  {
    && |counts| == |base|
    && (forall i :: 0 <= i < |base| ==> counts[i] == base[i] + if i in order[..k] then 1 else 0)
    && SumInts(counts) == SumInts(base) + k
  }

  lemma BumpStep(base: seq<int>, order: seq<int>, k: nat, counts: seq<int>)
    requires k < |order| && Distinct(order) && 0 <= order[k] < |base| && Bumped(base, order, k, counts)
    ensures Bumped(base, order, k + 1, counts[order[k] := counts[order[k]] + 1])
  {
    assert order[..k + 1] == order[..k] + [order[k]];
    assert order[k] !in order[..k];
    SumIntsUpdate(counts, order[k], counts[order[k]] + 1);
  }

  lemma BumpedIsAllocation(total: nat, ratios: seq<real>, leftover: nat, counts: seq<int>)
    requires RatiosOk(ratios) && leftover == total - SumInts(Floors(Shares(total, ratios))) && leftover <= |ratios|
    requires var order := RoundingOrder(Remainders(Shares(total, ratios))); leftover <= |order| && Bumped(Floors(Shares(total, ratios)), order, leftover, counts)
    ensures IsAllocation(total, ratios, counts)
  {
    var shares := Shares(total, ratios);
    var remainders := Remainders(shares);
    var order := RoundingOrder(remainders);
    RoundingOrderSorted(remainders);
    LeftoverFacts(total, ratios);
    forall x | 0 <= x < leftover ensures order[x] in order[..leftover] {
      assert order[..leftover][x] == order[x];
    }
    forall i | 0 <= i < |counts| && RoundedUp(total, ratios, counts, i) ensures remainders[i] > 0.0 {
      var k :| 0 <= k < leftover && order[k] == i;
      RoundedUpIsPositive(remainders, leftover, k);
    }
    forall i, j | 0 <= i < |counts| && 0 <= j < |counts| && RoundedUp(total, ratios, counts, i) && !RoundedUp(total, ratios, counts, j)
      ensures remainders[i] > remainders[j] || (remainders[i] == remainders[j] && i < j)
    {
      var k :| 0 <= k < leftover && order[k] == i;
      PermutesCovers(order, |remainders|, j);
      var m :| 0 <= m < |remainders| && order[m] == j;
      assert NotAfter(remainders, order[k], order[m]);
    }
  }

  datatype AllocationError = NegativeTotal

  method Allocate(total: int, ratios: seq<real>) returns (r: Result<seq<int>, AllocationError>)
    requires RatiosOk(ratios)
    ensures r.Ok? <==> total >= 0
    ensures r.Ok? ==> IsAllocation(total, ratios, r.value)
  {
    if total < 0 {
      return Err(NegativeTotal);
    }
    var shares := Shares(total, ratios);
    var base := Floors(shares);
    var remaining := total - SumInts(base);
    LeftoverFacts(total, ratios);
    var order := RoundingOrder(Remainders(shares));
    RoundingOrderSorted(Remainders(shares));
    var counts := base;
    for k := 0 to remaining
      invariant Bumped(base, order, k, counts)
    {
      BumpStep(base, order, k, counts);
      counts := counts[order[k] := counts[order[k]] + 1];
    }
    BumpedIsAllocation(total, ratios, remaining, counts);
    return Ok(counts);
  }

  lemma AllocationNonneg(total: nat, ratios: seq<real>, counts: seq<int>)
    requires RatiosOk(ratios) && IsAllocation(total, ratios, counts)
    ensures forall i :: 0 <= i < |counts| ==> counts[i] >= 0
  {
    forall i | 0 <= i < |counts| ensures counts[i] >= 0 {
      MulNonneg(total as real, ratios[i]);
      assert Shares(total, ratios)[i] >= 0.0;
    }
  }
}

/** Expression trees as the loosely typed values the program passes around, and what a review makes of them. */
module FactorTrees {
  import opened Wrappers

  /** A JSON-like value; `Other` is anything the tree code never looks into, with what `dict` makes of it, if anything
      (a list of pairs becomes a dictionary, null raises). */
  datatype Value = Str(text: string) | Int(number: int) | Obj(entries: map<string, Value>) | Other(pairs: Option<map<string, Value>>)

  /** `_is_wellformed`: a leaf is exactly {field}, an operator node exactly {op, window, input}. */
  predicate WellFormed(v: Value) {
    if !v.Obj? then false
    else if "field" in v.entries then v.entries.Keys == {"field"} && v.entries["field"].Str?
    else
      && v.entries.Keys == {"op", "window", "input"} && v.entries["op"].Str? && v.entries["window"].Int?
      && WellFormed(v.entries["input"])
  }

  function Leaf(field: string): Value {
    Obj(map["field" := Str(field)])
  }

  function Node(op: string, window: int, input: Value): Value {
    Obj(map["op" := Str(op), "window" := Int(window), "input" := input])
  }

  predicate IsLeaf(v: Value) {
    v.Obj? && "field" in v.entries
  }

  datatype Operator = Operator(op: string, window: int)

  /** A well-formed tree is a chain: operators from the root down, ending in one field. */
  function Build(ops: seq<Operator>, field: string): Value {
    if ops == [] then Leaf(field) else Node(ops[0].op, ops[0].window, Build(ops[1..], field))
  }

  function Operators(v: Value): seq<Operator>
    requires WellFormed(v)
  {
    if IsLeaf(v) then [] else [Operator(v.entries["op"].text, v.entries["window"].number)] + Operators(v.entries["input"])
  }

  function Field(v: Value): string
    requires WellFormed(v)
  {
    if IsLeaf(v) then v.entries["field"].text else Field(v.entries["input"])
  }

  lemma {:induction false} BuildWellFormed(ops: seq<Operator>, field: string)
    ensures WellFormed(Build(ops, field))
    ensures Operators(Build(ops, field)) == ops && Field(Build(ops, field)) == field
  {
    if ops != [] {
      BuildWellFormed(ops[1..], field);
      assert Build(ops, field).entries.Keys == {"op", "window", "input"};
    }
  }

  /** Every well-formed tree is such a chain. */
  lemma {:induction false} WellFormedIsChain(v: Value)
    requires WellFormed(v)
    ensures v == Build(Operators(v), Field(v))
  {
    if IsLeaf(v) {
      assert v.entries == map["field" := v.entries["field"]];
    } else {
      WellFormedIsChain(v.entries["input"]);
      assert v.entries == map["op" := v.entries["op"], "window" := v.entries["window"], "input" := v.entries["input"]];
    }
  }

  // ---- The vocabulary and the review's walks.

  datatype Vocabulary = Vocabulary(fields: seq<string>, operators: seq<string>, windows: seq<int>)

  ghost predicate Unique<T>(s: seq<T>) {
    forall i, j :: 0 <= i < j < |s| ==> s[i] != s[j]
  }

  ghost predicate VocabularyOk(vocabulary: Vocabulary) {
    && |vocabulary.fields| >= 2 && Unique(vocabulary.fields)
    && |vocabulary.operators| >= 1 && Unique(vocabulary.operators)
    && |vocabulary.windows| >= 2 && Unique(vocabulary.windows)
  }

  predicate KnownOperator(vocabulary: Vocabulary, o: Operator) {
    o.op in vocabulary.operators && o.window in vocabulary.windows
  }

  ghost predicate ChainKnown(vocabulary: Vocabulary, ops: seq<Operator>, field: string) {
    field in vocabulary.fields && forall i :: 0 <= i < |ops| ==> KnownOperator(vocabulary, ops[i])
  }

  /** Well formed, and every name and window comes from the vocabulary. */
  ghost predicate InVocabulary(vocabulary: Vocabulary, v: Value) {
    WellFormed(v) && ChainKnown(vocabulary, Operators(v), Field(v))
  }

  lemma BuildInVocabulary(vocabulary: Vocabulary, ops: seq<Operator>, field: string)
    requires ChainKnown(vocabulary, ops, field)
    ensures InVocabulary(vocabulary, Build(ops, field))
  {
    BuildWellFormed(ops, field);
  }

  // ---- Walking down a tree.

  /** `_subtree_count`. */
  function SubtreeCount(v: Value): (n: nat)
    ensures n >= 1
  {
    if IsLeaf(v) || !v.Obj? || "input" !in v.entries then 1 else 1 + SubtreeCount(v.entries["input"])
  }

  /** `_node_at`. */
  function NodeAt(v: Value, index: nat): Value {
    if index == 0 || IsLeaf(v) || !v.Obj? || "input" !in v.entries then v else NodeAt(v.entries["input"], index - 1)
  }

  /** The tree with the input of its operator node number `k` replaced. */
  function WithInputAt(v: Value, k: nat, sub: Value): Value
    requires WellFormed(v) && k < |Operators(v)|
  {
    if k == 0 then Obj(v.entries["input" := sub])
    else Obj(v.entries["input" := WithInputAt(v.entries["input"], k - 1, sub)])
  }

  function WithWindowAt(v: Value, k: nat, window: int): Value
    requires WellFormed(v) && k < |Operators(v)|
  {
    if k == 0 then Obj(v.entries["window" := Int(window)])
    else Obj(v.entries["input" := WithWindowAt(v.entries["input"], k - 1, window)])
  }

  lemma {:induction false} SubtreeCountIs(ops: seq<Operator>, field: string)
    ensures SubtreeCount(Build(ops, field)) == |ops| + 1
  {
    if ops != [] {
      SubtreeCountIs(ops[1..], field);
    }
  }

  lemma BuildStep(ops: seq<Operator>, field: string)
    requires ops != []
    ensures var v := Build(ops, field); v.Obj? && !IsLeaf(v) && "input" in v.entries && v.entries["input"] == Build(ops[1..], field)
  {
  }

  /** The subtree number `index` of a chain is the rest of the chain. */
  lemma {:induction false} NodeAtIs(ops: seq<Operator>, field: string, index: nat)
    requires index <= |ops|
    ensures NodeAt(Build(ops, field), index) == Build(ops[index..], field)
    decreases index
  {
    if index > 0 {
      BuildStep(ops, field);
      assert NodeAt(Build(ops, field), index) == NodeAt(Build(ops[1..], field), index - 1);
      NodeAtIs(ops[1..], field, index - 1);
      assert ops[1..][index - 1..] == ops[index..];
    }
  }

  /** Grafting at operator `k` keeps the operators down to `k` and continues with the graft. */
  lemma {:induction false} WithInputAtIs(ops: seq<Operator>, field: string, k: nat, tail: seq<Operator>, leaf: string)
    requires k < |ops|
    ensures WellFormed(Build(ops, field)) && Operators(Build(ops, field)) == ops
    ensures WithInputAt(Build(ops, field), k, Build(tail, leaf)) == Build(ops[..k + 1] + tail, leaf)
    decreases k
  {
    BuildWellFormed(ops, field);
    var all := ops[..k + 1] + tail;
    assert all[0] == ops[0];
    if k == 0 {
      assert all[1..] == tail;
      assert Build(ops, field).entries["input" := Build(tail, leaf)] == Build(all, leaf).entries;
    } else {
      WithInputAtIs(ops[1..], field, k - 1, tail, leaf);
      assert all[1..] == ops[1..][..k] + tail;
      assert Build(ops, field).entries["input" := Build(all[1..], leaf)] == Build(all, leaf).entries;
    }
  }

  lemma {:induction false} WithWindowAtIs(ops: seq<Operator>, field: string, k: nat, window: int)
    requires k < |ops|
    ensures WellFormed(Build(ops, field)) && Operators(Build(ops, field)) == ops
    ensures WithWindowAt(Build(ops, field), k, window) == Build(ops[k := ops[k].(window := window)], field)
    decreases k
  {
    BuildWellFormed(ops, field);
    var all := ops[k := ops[k].(window := window)];
    if k == 0 {
      assert all[1..] == ops[1..];
      assert Build(ops, field).entries["window" := Int(window)] == Build(all, field).entries;
    } else {
      WithWindowAtIs(ops[1..], field, k - 1, window);
      assert all[0] == ops[0] && all[1..] == ops[1..][k - 1 := ops[k].(window := window)];
      assert Build(ops, field).entries["input" := Build(all[1..], field)] == Build(all, field).entries;
    }
  }
}

module FactorGeneration {
  import opened Wrappers
  import opened Sorting
  import opened Strategies
  import opened LargestRemainder
  import opened FactorTrees

  const TREE_DEPTH_LIMIT := 3

  datatype Generated = Generated(strategy: Strategy, definition: Value)

  ghost predicate ParentsOk(vocabulary: Vocabulary, parents: seq<Value>) {
    forall i :: 0 <= i < |parents| ==> InVocabulary(vocabulary, parents[i])
  }

  /** `_random_tree`: some chain of at most the depth limit. */
  method RandomTree(vocabulary: Vocabulary, depth: nat) returns (v: Value, ghost ops: seq<Operator>, ghost field: string)
    requires VocabularyOk(vocabulary) && depth <= TREE_DEPTH_LIMIT
    ensures v == Build(ops, field) && ChainKnown(vocabulary, ops, field) && |ops| <= TREE_DEPTH_LIMIT - depth
    decreases TREE_DEPTH_LIMIT - depth
  {
    var stop: bool := *;
    if depth >= TREE_DEPTH_LIMIT || stop {
      var f :| 0 <= f < |vocabulary.fields|;
      return Leaf(vocabulary.fields[f]), [], vocabulary.fields[f];
    }
    var o :| 0 <= o < |vocabulary.operators|;
    var w :| 0 <= w < |vocabulary.windows|;
    var input, below, leaf := RandomTree(vocabulary, depth + 1);
    v := Node(vocabulary.operators[o], vocabulary.windows[w], input);
    ops, field := [Operator(vocabulary.operators[o], vocabulary.windows[w])] + below, leaf;
    assert ops[1..] == below;
  }

  /** Some other field of the vocabulary. */
  method OtherField(vocabulary: Vocabulary, current: string) returns (f: string)
    requires VocabularyOk(vocabulary)
    ensures f in vocabulary.fields && f != current
  {
    assert vocabulary.fields[0] != vocabulary.fields[1];
    var i :| 0 <= i < |vocabulary.fields| && vocabulary.fields[i] != current;
    return vocabulary.fields[i];
  }

  /** `_mutate` keeps the operators and changes the field to another known one. */
  method Mutated(vocabulary: Vocabulary, parents: seq<Value>) returns (v: Value)
    requires VocabularyOk(vocabulary) && parents != [] && ParentsOk(vocabulary, parents)
    ensures InVocabulary(vocabulary, v)
    ensures exists p :: p in parents && Operators(v) == Operators(p) && Field(v) != Field(p)
  {
    var i :| 0 <= i < |parents|;
    var tree := parents[i];
    ghost var ops, field := Operators(tree), Field(tree);
    WellFormedIsChain(tree);
    var leaf := FieldOf(tree);
    var other := OtherField(vocabulary, leaf);
    BuildInVocabulary(vocabulary, ops, other);
    BuildWellFormed(ops, other);
    if IsLeaf(tree) {
      v := Obj(tree.entries["field" := Str(other)]);
      assert v.entries == Leaf(other).entries;
    } else {
      var last := |Operators(tree)| - 1;
      WithInputAtIs(ops, field, last, [], other);
      assert ops[..last + 1] + [] == ops;
      v := WithInputAt(tree, last, Leaf(other));
    }
    assert parents[i] in parents;
  }

  function FieldOf(v: Value): (f: string)
    requires WellFormed(v)
    ensures f == Field(v)
  {
    Field(v)
  }

  /** The first part of one chain, then the end of another. */
  ghost predicate Spliced(child: Value, tree: Value, donor: Value, keep: nat, from: nat)
    requires WellFormed(child) && WellFormed(tree) && WellFormed(donor)
  {
    && keep <= |Operators(tree)| && from <= |Operators(donor)|
    && Operators(child) == Operators(tree)[..keep] + Operators(donor)[from..]
    && Field(child) == Field(donor)
  }

  /** `_crossover`: a prefix of one parent's chain followed by a suffix of the donor's. */
  method Crossed(vocabulary: Vocabulary, parents: seq<Value>) returns (v: Value, ghost tree: Value, ghost donor: Value, ghost keep: nat, ghost from: nat)
    requires VocabularyOk(vocabulary) && parents != [] && ParentsOk(vocabulary, parents)
    ensures InVocabulary(vocabulary, v) && tree in parents && donor in parents
    ensures WellFormed(tree) && WellFormed(donor) && Spliced(v, tree, donor, keep, from)
  {
    var i :| 0 <= i < |parents|;
    var j :| 0 <= j < |parents|;
    var a, d := parents[i], parents[j];
    ghost var ops, field, more, leaf := Operators(a), Field(a), Operators(d), Field(d);
    WellFormedIsChain(a);
    WellFormedIsChain(d);
    var positions := 1 + |Operators(a)|;
    var chosen :| 0 <= chosen < positions;
    SubtreeCountIs(more, leaf);
    var index :| 0 <= index < SubtreeCount(d);
    NodeAtIs(more, leaf, index);
    var subtree := NodeAt(d, index);
    tree, donor, keep, from := a, d, chosen, index;
    ghost var result := ops[..chosen] + more[index..];
    SplicedKnown(vocabulary, ops, field, more, leaf, chosen, index);
    BuildInVocabulary(vocabulary, result, leaf);
    BuildWellFormed(result, leaf);
    if chosen == 0 {
      assert result == more[index..];
      v := subtree;
    } else {
      WithInputAtIs(ops, field, chosen - 1, more[index..], leaf);
      v := WithInputAt(a, chosen - 1, subtree);
    }
  }

  lemma SplicedKnown(vocabulary: Vocabulary, ops: seq<Operator>, field: string, more: seq<Operator>, leaf: string, keep: nat, from: nat)
    requires ChainKnown(vocabulary, ops, field) && ChainKnown(vocabulary, more, leaf) && keep <= |ops| && from <= |more|
    ensures ChainKnown(vocabulary, ops[..keep] + more[from..], leaf)
  {
  }

  /** `_random_window_shift`: a different window at most `step` places away, if there is one in reach. */
  method ShiftedWindow(vocabulary: Vocabulary, current: int, step: nat) returns (window: int, ghost at: nat, ghost to: nat)
    requires VocabularyOk(vocabulary) && step >= 1 && current in vocabulary.windows
    ensures at < |vocabulary.windows| && vocabulary.windows[at] == current
    ensures to < |vocabulary.windows| && vocabulary.windows[to] == window
    ensures to != at && at <= to + step && to <= at + step
  {
    var index :| 0 <= index < |vocabulary.windows| && vocabulary.windows[index] == current;
    // Two windows at least: one neighbour is always in reach, so the empty-offsets branch is never taken.
    var near := if index == 0 then 1 else index - 1;
    assert near != index && index <= near + step && near <= index + step && near < |vocabulary.windows|;
    var other: nat :| other != index && index <= other + step && other <= index + step && other < |vocabulary.windows|;
    return vocabulary.windows[other], index, other;
  }

  /** Perturbing changes one window, by at most `step` places in the vocabulary. */
  ghost predicate PerturbedBy(vocabulary: Vocabulary, v: Value, p: Value, step: nat)
    requires WellFormed(v) && WellFormed(p)
  {
    exists k, at: nat, to: nat ::
      && 0 <= k < |Operators(p)| && at < |vocabulary.windows| && to < |vocabulary.windows|
      && vocabulary.windows[at] == Operators(p)[k].window && to != at && at <= to + step && to <= at + step
      && Operators(v) == Operators(p)[k := Operators(p)[k].(window := vocabulary.windows[to])] && Field(v) == Field(p)
  }

  ghost predicate MutationOf(v: Value, p: Value)
    requires WellFormed(v) && WellFormed(p)
  {
    Operators(v) == Operators(p) && Field(v) != Field(p)
  }

  /** `_perturb`: one window of a parent moves; a parent without operators is mutated instead. */
  method Perturbed(vocabulary: Vocabulary, parents: seq<Value>, step: nat) returns (v: Value)
    requires VocabularyOk(vocabulary) && parents != [] && ParentsOk(vocabulary, parents) && step >= 1
    ensures InVocabulary(vocabulary, v)
    ensures exists p :: p in parents && WellFormed(p) && (PerturbedBy(vocabulary, v, p, step) || MutationOf(v, p))
  {
    var i :| 0 <= i < |parents|;
    var tree := parents[i];
    assert InVocabulary(vocabulary, tree) && tree in parents;
    ghost var ops, field := Operators(tree), Field(tree);
    WellFormedIsChain(tree);
    if IsLeaf(tree) {
      v := Mutated(vocabulary, parents);
      var p :| p in parents && WellFormed(p) && Operators(v) == Operators(p) && Field(v) != Field(p);
      assert MutationOf(v, p);
      return;
    }
    var k :| 0 <= k < |Operators(tree)|;
    var current := Operators(tree)[k].window;
    assert KnownOperator(vocabulary, ops[k]);
    var window, at, to := ShiftedWindow(vocabulary, current, step);
    WithWindowAtIs(ops, field, k, window);
    v := WithWindowAt(tree, k, window);
    BuildWellFormed(ops[k := ops[k].(window := window)], field);
    assert window in vocabulary.windows;
    assert PerturbedBy(vocabulary, v, tree, step);
  }

  ghost predicate CrossedFrom(v: Value, tree: Value, donor: Value)
    requires WellFormed(v) && WellFormed(tree) && WellFormed(donor)
  {
    exists keep, from :: Spliced(v, tree, donor, keep, from)
  }

  /** What a strategy makes of the parents: a chain within the depth limit, a parent with another field, the start of one
      parent with the end of another, or a parent with one window moved by at most `step` places. */
  ghost predicate DrawnAs(vocabulary: Vocabulary, strategy: Strategy, parents: seq<Value>, step: nat, v: Value) {
    WellFormed(v) && match strategy
      case RandomExplore => |Operators(v)| <= TREE_DEPTH_LIMIT
      case Mutate => exists p :: p in parents && WellFormed(p) && MutationOf(v, p)
      case Crossover => exists p, d :: p in parents && d in parents && WellFormed(p) && WellFormed(d) && CrossedFrom(v, p, d)
      case ParameterPerturb => exists p :: p in parents && WellFormed(p) && (PerturbedBy(vocabulary, v, p, step) || MutationOf(v, p))
      case LlmMechanism => true
  }

  /** Everything but proposals from outside is well formed over the vocabulary, and made as its strategy says. */
  ghost predicate BatchOk(vocabulary: Vocabulary, parents: seq<Value>, step: nat, batch: seq<Generated>) {
    forall i :: 0 <= i < |batch| && !batch[i].strategy.LlmMechanism? ==>
      InVocabulary(vocabulary, batch[i].definition) && DrawnAs(vocabulary, batch[i].strategy, parents, step, batch[i].definition)
  }

  /** What asking the proposer comes to: nothing (there is none, or it raised), something `list` refuses, or a list. */
  datatype Answer = Nothing | NotIterable | Listed(proposals: seq<Value>)

  datatype GenerationError = NotAMapping

  /** `dict(proposal)`: a mapping is copied, an empty string gives an empty dictionary, other scalars raise. */
  function AsMapping(v: Value): Option<map<string, Value>> {
    match v
    case Obj(entries) => Some(entries)
    case Str(text) => if text == "" then Some(map[]) else None
    case Int(_) => None
    case Other(pairs) => pairs
  }

  /** Taking up to `count` proposals raises. */
  predicate Breaks(count: nat, answer: Answer) {
    match answer
    case Nothing => false
    case NotIterable => true
    case Listed(proposals) => exists i :: 0 <= i < count && i < |proposals| && AsMapping(proposals[i]).None?
  }

  function Proposed(v: Value): Generated
    requires AsMapping(v).Some?
  {
    Generated(LlmMechanism, Obj(AsMapping(v).value))
  }

  /** The proposer's own proposals in order, then random exploration. */
  ghost predicate MechanismBatch(answer: Answer, batch: seq<Generated>) {
    forall i :: 0 <= i < |batch| ==>
      if answer.Listed? && i < |answer.proposals| then AsMapping(answer.proposals[i]).Some? && batch[i] == Proposed(answer.proposals[i])
      else batch[i].strategy.RandomExplore?
  }

  /** The block of one strategy: as many candidates as its count, behind those of the strategies declared before it. */
  ghost predicate BlockOk(candidates: seq<Generated>, counts: seq<int>, i: nat, parents: seq<Value>, answer: Answer)
    requires i < 5 == |counts|
  {
    var start := SumInts(counts[..i]);
    && 0 <= start && 0 <= counts[i] && start + counts[i] <= |candidates|
    && var batch := candidates[start..start + counts[i]];
       if DECLARED[i].LlmMechanism? then MechanismBatch(answer, batch)
       else forall k :: 0 <= k < |batch| ==> batch[k].strategy == if parents == [] then RandomExplore else DECLARED[i]
  }

  class FactorCandidateFactory {
    const vocabulary: Vocabulary
    var ratios: PerStrategy<real>
    var windowStep: nat

    ghost predicate Valid()
      reads this
    {
      VocabularyOk(vocabulary) && RatiosOk(Along(ratios, DECLARED)) && windowStep >= 1
    }

    constructor (vocabulary: Vocabulary, ratios: PerStrategy<real>)
      requires VocabularyOk(vocabulary) && RatiosOk(Along(ratios, DECLARED))
      ensures Valid() && this.vocabulary == vocabulary && this.ratios == ratios && windowStep == 1
    {
      this.vocabulary, this.ratios, windowStep := vocabulary, ratios, 1;
    }

    method RebindQuota(quota: PerStrategy<real>)
      requires Valid() && RatiosOk(Along(quota, DECLARED))
      modifies this`ratios
      ensures Valid() && ratios == quota
    {
      ratios := quota;
    }

    method SetWindowStep(step: nat)
      requires Valid() && step >= 1
      modifies this`windowStep
      ensures Valid() && windowStep == step
    {
      windowStep := step;
    }

    method Draw(strategy: Strategy, parents: seq<Value>) returns (v: Value)
      requires Valid() && !strategy.LlmMechanism? && ParentsOk(vocabulary, parents)
      requires strategy.RandomExplore? || parents != []
      ensures InVocabulary(vocabulary, v) && DrawnAs(vocabulary, strategy, parents, windowStep, v)
    {
      match strategy
      case RandomExplore =>
        ghost var ops: seq<Operator>, field: string;
        v, ops, field := RandomTree(vocabulary, 0);
        BuildInVocabulary(vocabulary, ops, field);
        BuildWellFormed(ops, field);
      case Mutate =>
        v := Mutated(vocabulary, parents);
        ghost var p :| p in parents && WellFormed(p) && Operators(v) == Operators(p) && Field(v) != Field(p);
        assert MutationOf(v, p);
      case Crossover =>
        ghost var tree: Value, donor: Value, keep: nat, from: nat;
        v, tree, donor, keep, from := Crossed(vocabulary, parents);
        assert CrossedFrom(v, tree, donor);
      case _ => v := Perturbed(vocabulary, parents, windowStep);
    }

    /** `_native_candidates`: without parents everything becomes random exploration. */
    method Native(strategy: Strategy, count: nat, parents: seq<Value>) returns (batch: seq<Generated>)
      requires Valid() && !strategy.LlmMechanism? && ParentsOk(vocabulary, parents)
      ensures |batch| == count && BatchOk(vocabulary, parents, windowStep, batch)
      ensures forall i :: 0 <= i < count ==> batch[i].strategy == if parents == [] then RandomExplore else strategy
    {
      var actual := if !strategy.RandomExplore? && parents == [] then RandomExplore else strategy;
      batch := [];
      for i := 0 to count
        invariant |batch| == i && BatchOk(vocabulary, parents, windowStep, batch)
        invariant forall j :: 0 <= j < i ==> batch[j].strategy == actual
      {
        var v := Draw(actual, parents);
        batch := batch + [Generated(actual, v)];
      }
    }

    /** `_mechanism_candidates`: a proposer that fails or returns too little is made up for by random exploration, but
        what it does return is copied outside the guard, so a proposal that is no mapping raises. */
    method Mechanism(count: nat, answer: Answer) returns (r: Result<seq<Generated>, GenerationError>)
      requires Valid()
      ensures r.Err? <==> Breaks(count, answer)
      ensures r.Ok? ==> |r.value| == count && BatchOk(vocabulary, [], windowStep, r.value) && MechanismBatch(answer, r.value)
    {
      if answer.NotIterable? {
        return Err(NotAMapping);
      }
      var results: seq<Generated> := [];
      if answer.Listed? {
        var proposals := answer.proposals;
        var taken := if |proposals| < count then |proposals| else count;
        for i := 0 to taken
          invariant |results| == i && forall j :: 0 <= j < i ==> AsMapping(proposals[j]).Some? && results[j] == Proposed(proposals[j])
        {
          if AsMapping(proposals[i]).None? {
            return Err(NotAMapping);
          }
          results := results + [Proposed(proposals[i])];
        }
      }
      var rest := Native(RandomExplore, count - |results|, []);
      return Ok(results + rest);
    }

    /** `generate`: exactly `count` candidates, block by block, unless a proposal that is to be used is no mapping. */
    method Generate(count: nat, parents: seq<Value>, answer: Answer) returns (r: Result<seq<Generated>, GenerationError>, ghost counts: seq<int>)
      requires Valid() && count >= 1 && ParentsOk(vocabulary, parents)
      ensures IsAllocation(count, Along(ratios, DECLARED), counts) && counts[4] >= 0
      ensures r.Err? <==> counts[4] > 0 && Breaks(counts[4], answer)
      ensures r.Ok? ==> |r.value| == count && BatchOk(vocabulary, parents, windowStep, r.value)
      ensures r.Ok? ==> forall i :: 0 <= i < 5 ==> BlockOk(r.value, counts, i, parents, answer)
    {
      var candidates: seq<Generated> := [];
      var split := Allocate(count, Along(ratios, DECLARED));
      var shares := split.value;
      counts := shares;
      AllocationNonneg(count, Along(ratios, DECLARED), shares);
      for i := 0 to 5
        invariant |candidates| == SumInts(shares[..i]) && BatchOk(vocabulary, parents, windowStep, candidates)
        invariant forall k :: 0 <= k < i ==> BlockOk(candidates, shares, k, parents, answer)
        invariant i == 5 ==> !(shares[4] > 0 && Breaks(shares[4], answer))
      {
        SumIntsPrefix(shares, i);
        var batch: seq<Generated> := [];
        if shares[i] != 0 {
          if DECLARED[i].LlmMechanism? {
            var mechanism := Mechanism(shares[i], answer);
            if mechanism.Err? {
              return Err(mechanism.error), counts;
            }
            batch := mechanism.value;
            MoreParents(vocabulary, [], parents, windowStep, batch);
          } else {
            batch := Native(DECLARED[i], shares[i], parents);
          }
        }
        BatchesJoin(vocabulary, parents, windowStep, candidates, batch);
        BlocksJoin(candidates, batch, shares, i, parents, answer);
        candidates := candidates + batch;
      }
      assert shares[..5] == shares;
      return Ok(candidates), counts;
    }
  }

  /** An answer a proposer might give: a list holding a string instead of a tree. One slot for it is enough. */
  lemma StringProposalBreaks(text: string, more: seq<Value>, count: nat)
    requires text != ""
    ensures Breaks(count, Listed([Str(text)] + more)) <==> count > 0
  {
    if count > 0 {
      assert AsMapping(([Str(text)] + more)[0]).None?;
    }
  }

  /** A block already in place is not disturbed by the next one, which is in place right behind it. */
  lemma BlocksJoin(candidates: seq<Generated>, batch: seq<Generated>, counts: seq<int>, i: nat, parents: seq<Value>, answer: Answer)
    requires i < 5 == |counts| && |candidates| == SumInts(counts[..i]) && |batch| == counts[i]
    requires forall k :: 0 <= k < 5 ==> counts[k] >= 0
    requires forall k :: 0 <= k < i ==> BlockOk(candidates, counts, k, parents, answer)
    requires if DECLARED[i].LlmMechanism? then MechanismBatch(answer, batch)
             else forall k :: 0 <= k < |batch| ==> batch[k].strategy == if parents == [] then RandomExplore else DECLARED[i]
    ensures forall k :: 0 <= k <= i ==> BlockOk(candidates + batch, counts, k, parents, answer)
  {
    forall k | 0 <= k <= i ensures BlockOk(candidates + batch, counts, k, parents, answer) {
      if k < i {
        assert BlockOk(candidates, counts, k, parents, answer);
        var start := SumInts(counts[..k]);
        assert (candidates + batch)[start..start + counts[k]] == candidates[start..start + counts[k]];
      } else {
        SumIntsPrefix(counts, i);
        SumIntsNonneg(counts[..i]);
        assert (candidates + batch)[|candidates|..|candidates| + counts[i]] == batch;
      }
    }
  }

  lemma {:induction false} SumIntsNonneg(s: seq<int>)
    requires forall k :: 0 <= k < |s| ==> s[k] >= 0
    ensures SumInts(s) >= 0
  {
    if s != [] {
      SumIntsNonneg(s[1..]);
    }
  }

  lemma {:induction false} SumIntsPrefix(s: seq<int>, i: nat)
    requires i < |s|
    ensures SumInts(s[..i + 1]) == SumInts(s[..i]) + s[i]
    decreases i
  {
    if i == 0 {
      assert s[..1][1..] == [];
    } else {
      SumIntsPrefix(s[1..], i - 1);
      assert s[..i + 1][1..] == s[1..][..i] && s[..i][1..] == s[1..][..i - 1];
    }
  }

  lemma BatchesJoin(vocabulary: Vocabulary, parents: seq<Value>, step: nat, a: seq<Generated>, b: seq<Generated>)
    requires BatchOk(vocabulary, parents, step, a) && BatchOk(vocabulary, parents, step, b)
    ensures BatchOk(vocabulary, parents, step, a + b)
  {
  }

  /** Whatever was drawn from some of the parents was drawn from all of them. */
  lemma MoreParents(vocabulary: Vocabulary, fewer: seq<Value>, parents: seq<Value>, step: nat, batch: seq<Generated>)
    requires BatchOk(vocabulary, fewer, step, batch) && forall p :: p in fewer ==> p in parents
    ensures BatchOk(vocabulary, parents, step, batch)
  {
  }

  // ---- The parent pool.

  function Latest(entries: seq<Value>, capacity: nat): seq<Value> {
    if |entries| <= capacity then entries else entries[|entries| - capacity..]
  }

  lemma AppendDistinct(s: seq<Value>, v: Value)
    requires Distinct(s) && v !in s
    ensures Distinct(s + [v])
  {
  }

  /** `ParentPool`; the content hash of a candidate is modelled by the candidate. */
  class ParentPool {
    const capacity: nat
    var entries: seq<Value>
    var seen: set<Value>

    ghost predicate Valid()
      reads this
    {
      && capacity >= 1 && |entries| <= capacity && Distinct(entries)
      && forall v :: v in seen <==> v in entries
    }

    constructor (capacity: nat)
      requires capacity >= 1
      ensures Valid() && this.capacity == capacity && entries == []
    {
      this.capacity, entries, seen := capacity, [], {};
    }

    /** Known content is refused; otherwise the newest `capacity` entries stay, in order of arrival. */
    method Add(candidate: Value) returns (added: bool)
      requires Valid()
      modifies this`entries, this`seen
      ensures Valid()
      ensures added <==> candidate !in old(entries)
      ensures entries == if added then Latest(old(entries) + [candidate], capacity) else old(entries)
    {
      if candidate in seen {
        return false;
      }
      AppendDistinct(entries, candidate);
      entries := entries + [candidate];
      seen := seen + {candidate};
      ghost var all := entries;
      while |entries| > capacity
        invariant Distinct(entries) && |entries| <= |all| && entries == Latest(all, |entries|)
        invariant |entries| >= capacity || entries == all
        invariant forall v :: v in seen <==> v in entries
        decreases |entries|
      {
        var evicted := entries[0];
        assert entries == [evicted] + entries[1..];
        entries := entries[1..];
        seen := seen - {evicted};
      }
      return true;
    }
  }
}

/** domain_sdk/factor_review.py: the hard gate on candidates; a content hash is modelled by the content. */
module FactorReview {
  import opened Wrappers
  import opened FactorTrees
  import FactorGeneration

  datatype ReviewCode =
    | MalformedTree | UnknownField | UnknownOperator | UnknownWindow | WindowOutOfBounds | RedundantIdentity
    | DimensionMismatch | DepthExceeded | ComplexityExceeded | DuplicateCandidate

  /** Accepted input dimensions (`None` for any) and the output dimension (`None` keeps the input's). */
  datatype Signature = Signature(accepts: Option<set<string>>, output: Option<string>, idempotent: bool)

  datatype Policy = Policy(maxDepth: nat, maxOperators: nat, minWindow: int, maxWindow: int, rejectRedundant: bool)

  datatype Reviewer = Reviewer(vocabulary: Vocabulary, dimensions: map<string, string>, signatures: map<string, Signature>, policy: Policy)

  /** The tables cover the vocabulary. */
  predicate Covers(r: Reviewer) {
    (forall f :: f in r.vocabulary.fields ==> f in r.dimensions) && (forall o :: o in r.vocabulary.operators ==> o in r.signatures)
  }

  // ---- `_vocabulary_reasons`.

  function OperatorReasons(r: Reviewer, o: Operator): seq<ReviewCode> {
    (if o.op !in r.vocabulary.operators then [UnknownOperator] else []) +
    (if o.window !in r.vocabulary.windows then [UnknownWindow]
     else if !(r.policy.minWindow <= o.window <= r.policy.maxWindow) then [WindowOutOfBounds]
     else [])
  }

  /** The walk from the root to the field. */
  function VocabularyReasons(r: Reviewer, v: Value): seq<ReviewCode>
    requires WellFormed(v)
  {
    if IsLeaf(v) then if v.entries["field"].text !in r.vocabulary.fields then [UnknownField] else []
    else OperatorReasons(r, Operator(v.entries["op"].text, v.entries["window"].number)) + VocabularyReasons(r, v.entries["input"])
  }

  predicate Unknown(c: ReviewCode) {
    c in {UnknownField, UnknownOperator, UnknownWindow}
  }

  predicate InBounds(r: Reviewer, o: Operator) {
    r.policy.minWindow <= o.window <= r.policy.maxWindow
  }

  lemma InVocabularyStep(vocabulary: Vocabulary, v: Value)
    requires WellFormed(v) && !IsLeaf(v)
    ensures InVocabulary(vocabulary, v) <==> KnownOperator(vocabulary, Operators(v)[0]) && InVocabulary(vocabulary, v.entries["input"])
  {
    var ops, rest := Operators(v), Operators(v.entries["input"]);
    assert ops[1..] == rest;
    if InVocabulary(vocabulary, v) {
      forall i | 0 <= i < |rest| ensures KnownOperator(vocabulary, rest[i]) {
        assert rest[i] == ops[i + 1];
      }
    }
    if KnownOperator(vocabulary, ops[0]) && InVocabulary(vocabulary, v.entries["input"]) {
      forall i | 0 <= i < |ops| ensures KnownOperator(vocabulary, ops[i]) {
        assert i > 0 ==> ops[i] == rest[i - 1];
      }
    }
  }

  ghost predicate NoneUnknown(reasons: seq<ReviewCode>) {
    forall c :: c in reasons ==> !Unknown(c)
  }

  lemma OperatorReasonsExact(r: Reviewer, o: Operator)
    ensures NoneUnknown(OperatorReasons(r, o)) <==> KnownOperator(r.vocabulary, o)
    ensures OperatorReasons(r, o) == [] <==> KnownOperator(r.vocabulary, o) && InBounds(r, o)
  {
    var reasons := OperatorReasons(r, o);
    if o.op !in r.vocabulary.operators {
      assert UnknownOperator in reasons;
    }
    if o.window !in r.vocabulary.windows {
      assert UnknownWindow in reasons;
    }
  }

  /** No unknown name or window is reported exactly for trees over the vocabulary. */
  lemma {:induction false} UnknownReasonsExact(r: Reviewer, v: Value)
    requires WellFormed(v)
    ensures InVocabulary(r.vocabulary, v) <==> NoneUnknown(VocabularyReasons(r, v))
  {
    if IsLeaf(v) {
      if Field(v) !in r.vocabulary.fields {
        assert UnknownField in VocabularyReasons(r, v);
      }
    } else {
      var o, rest := Operators(v)[0], v.entries["input"];
      UnknownReasonsExact(r, rest);
      InVocabularyStep(r.vocabulary, v);
      OperatorReasonsExact(r, o);
      assert VocabularyReasons(r, v) == OperatorReasons(r, o) + VocabularyReasons(r, rest);
    }
  }

  ghost predicate AllInBounds(r: Reviewer, ops: seq<Operator>) {
    forall i :: 0 <= i < |ops| ==> InBounds(r, ops[i])
  }

  /** Nothing at all is reported exactly for trees over the vocabulary whose windows are also within the policy. */
  lemma {:induction false} NoReasonsExact(r: Reviewer, v: Value)
    requires WellFormed(v)
    ensures VocabularyReasons(r, v) == [] <==> InVocabulary(r.vocabulary, v) && AllInBounds(r, Operators(v))
  {
    if !IsLeaf(v) {
      var ops, rest := Operators(v), v.entries["input"];
      NoReasonsExact(r, rest);
      InVocabularyStep(r.vocabulary, v);
      OperatorReasonsExact(r, ops[0]);
      assert ops == [ops[0]] + Operators(rest);
      assert VocabularyReasons(r, v) == OperatorReasons(r, ops[0]) + VocabularyReasons(r, rest);
      assert AllInBounds(r, ops) <==> InBounds(r, ops[0]) && AllInBounds(r, Operators(rest)) by {
        assert forall i :: 0 <= i < |Operators(rest)| ==> ops[i + 1] == Operators(rest)[i];
      }
    }
  }

  // ---- Identities, dimensions, depth.

  /** `_has_redundant_identity`: an operator directly on itself, with the same window or idempotent. */
  predicate Redundant(r: Reviewer, ops: seq<Operator>)
    requires forall i :: 0 <= i < |ops| ==> ops[i].op in r.signatures
  {
    exists i :: 0 <= i < |ops| - 1 && ops[i].op == ops[i + 1].op && (ops[i].window == ops[i + 1].window || r.signatures[ops[i].op].idempotent)
  }

  function DimensionAfter(r: Reviewer, o: Operator, input: string): string
    requires o.op in r.signatures
  {
    var output := r.signatures[o.op].output;
    if output.Some? && output.value != "" then output.value else input
  }

  /** `resolve`: the dimension of a chain, from its field up. */
  function Dimension(r: Reviewer, ops: seq<Operator>, field: string): string
    requires field in r.dimensions && forall i :: 0 <= i < |ops| ==> ops[i].op in r.signatures
  {
    if ops == [] then r.dimensions[field] else DimensionAfter(r, ops[0], Dimension(r, ops[1..], field))
  }

  predicate Declares(r: Reviewer, o: Operator, d: string) {
    o.op in r.signatures && r.signatures[o.op].output == Some(d) && d != ""
  }

  /** A chain has the dimension its outermost declaring operator gives it, and that of its field when none declares one. */
  lemma {:induction false} DimensionOfChain(r: Reviewer, ops: seq<Operator>, field: string, k: nat)
    requires field in r.dimensions && forall i :: 0 <= i < |ops| ==> ops[i].op in r.signatures
    requires k <= |ops| && forall i, d :: 0 <= i < k ==> !Declares(r, ops[i], d)
    ensures k == |ops| ==> Dimension(r, ops, field) == r.dimensions[field]
    ensures k < |ops| ==> forall d :: Declares(r, ops[k], d) ==> Dimension(r, ops, field) == d
  {
    if k > 0 {
      assert forall i :: 0 <= i < |ops[1..]| ==> ops[1..][i] == ops[i + 1];
      DimensionOfChain(r, ops[1..], field, k - 1);
      var output := r.signatures[ops[0].op].output;
      assert output.Some? && output.value != "" ==> Declares(r, ops[0], output.value);
    }
  }

  /** Some operator gets an input of a dimension it does not accept. */
  predicate Mismatched(r: Reviewer, ops: seq<Operator>, field: string)
    requires field in r.dimensions && forall i :: 0 <= i < |ops| ==> ops[i].op in r.signatures
  {
    exists i :: 0 <= i < |ops| && r.signatures[ops[i].op].accepts.Some?
      && Dimension(r, ops[i + 1..], field) !in r.signatures[ops[i].op].accepts.value
  }

  /** The loop of `_has_redundant_identity`. */
  method HasRedundantIdentity(r: Reviewer, v: Value) returns (b: bool)
    requires Covers(r) && InVocabulary(r.vocabulary, v)
    ensures b <==> Redundant(r, Operators(v))
  {
    var current := v;
    ghost var ops := Operators(v);
    ghost var i := 0;
    while !IsLeaf(current)
      invariant WellFormed(current) && i <= |ops| && Operators(current) == ops[i..]
      invariant forall j :: 0 <= j < i && j < |ops| - 1 ==>
        !(ops[j].op == ops[j + 1].op && (ops[j].window == ops[j + 1].window || r.signatures[ops[j].op].idempotent))
      decreases |Operators(current)|
    {
      assert ops[i..][0] == ops[i] && ops[i..][1..] == ops[i + 1..];
      assert KnownOperator(r.vocabulary, ops[i]);
      var child := current.entries["input"];
      if !IsLeaf(child) {
        assert ops[i + 1..][0] == ops[i + 1];
        var same := child.entries["op"] == current.entries["op"];
        if same && (child.entries["window"] == current.entries["window"] || r.signatures[current.entries["op"].text].idempotent) {
          return true;
        }
      }
      current := child;
      i := i + 1;
    }
    return false;
  }

  /** `resolve` in `_has_dimension_mismatch`: the dimension, and whether a mismatch was met on the way. */
  method Resolve(r: Reviewer, v: Value) returns (dimension: string, mismatched: bool)
    requires Covers(r) && InVocabulary(r.vocabulary, v)
    ensures dimension == Dimension(r, Operators(v), Field(v)) && (mismatched <==> Mismatched(r, Operators(v), Field(v)))
    decreases v
  {
    ghost var ops, field := Operators(v), Field(v);
    if IsLeaf(v) {
      return r.dimensions[v.entries["field"].text], false;
    }
    var o, rest := Operator(v.entries["op"].text, v.entries["window"].number), v.entries["input"];
    assert KnownOperator(r.vocabulary, ops[0]);
    assert ops[1..] == Operators(rest);
    assert InVocabulary(r.vocabulary, rest) by {
      forall i | 0 <= i < |ops[1..]| ensures KnownOperator(r.vocabulary, ops[1..][i]) {
        assert KnownOperator(r.vocabulary, ops[i + 1]);
      }
    }
    var input, below := Resolve(r, rest);
    var signature := r.signatures[o.op];
    mismatched := below || (signature.accepts.Some? && input !in signature.accepts.value);
    dimension := DimensionAfter(r, o, input);
    MismatchStep(r, ops, field);
  }

  lemma MismatchStep(r: Reviewer, ops: seq<Operator>, field: string)
    requires ops != [] && field in r.dimensions && forall i :: 0 <= i < |ops| ==> ops[i].op in r.signatures
    ensures Mismatched(r, ops, field) <==>
      || Mismatched(r, ops[1..], field)
      || (r.signatures[ops[0].op].accepts.Some? && Dimension(r, ops[1..], field) !in r.signatures[ops[0].op].accepts.value)
  {
    var rest := ops[1..];
    forall i | 0 <= i < |rest| ensures rest[i + 1..] == ops[i + 2..] && rest[i] == ops[i + 1] {
    }
    if Mismatched(r, rest, field) {
      var i :| 0 <= i < |rest| && r.signatures[rest[i].op].accepts.Some? && Dimension(r, rest[i + 1..], field) !in r.signatures[rest[i].op].accepts.value;
      assert ops[i + 1] == rest[i] && ops[(i + 1) + 1..] == rest[i + 1..];
    }
    if Mismatched(r, ops, field) {
      var i :| 0 <= i < |ops| && r.signatures[ops[i].op].accepts.Some? && Dimension(r, ops[i + 1..], field) !in r.signatures[ops[i].op].accepts.value;
      if i > 0 {
        assert rest[i - 1] == ops[i] && rest[(i - 1) + 1..] == ops[i + 1..];
      }
    }
  }

  /** `_operator_depth`. */
  method OperatorDepth(v: Value) returns (depth: nat)
    requires WellFormed(v)
    ensures depth == |Operators(v)|
  {
    depth := 0;
    var current := v;
    while !IsLeaf(current)
      invariant WellFormed(current) && depth + |Operators(current)| == |Operators(v)|
      decreases |Operators(current)|
    {
      depth := depth + 1;
      current := current.entries["input"];
    }
  }

  // ---- The verdict.

  datatype ReviewOutcome = ReviewOutcome(definition: Value, accepted: bool, reasons: seq<ReviewCode>)

  /** Everything the gate asks of one candidate. */
  ghost predicate Acceptable(r: Reviewer, v: Value, known: set<Value>)
    requires Covers(r)
  {
    && InVocabulary(r.vocabulary, v) && AllInBounds(r, Operators(v))
    && OperatorsCovered(r, v)
    && !(r.policy.rejectRedundant && Redundant(r, Operators(v))) && !Mismatched(r, Operators(v), Field(v))
    && |Operators(v)| <= r.policy.maxDepth && |Operators(v)| <= r.policy.maxOperators && v !in known
  }

  ghost predicate OperatorsCovered(r: Reviewer, v: Value)
    requires WellFormed(v)
  {
    Field(v) in r.dimensions && forall i :: 0 <= i < |Operators(v)| ==> Operators(v)[i].op in r.signatures
  }

  lemma VocabularyCovered(r: Reviewer, v: Value)
    requires Covers(r) && InVocabulary(r.vocabulary, v)
    ensures OperatorsCovered(r, v)
  {
    forall i | 0 <= i < |Operators(v)| ensures Operators(v)[i].op in r.signatures {
      assert KnownOperator(r.vocabulary, Operators(v)[i]);
    }
  }

  /** What a report shows of a candidate: nothing of one that is no mapping. */
  function Shown(v: Value): Value {
    if v.Obj? then v else Obj(map[])
  }

  /** The checks on a tree over the vocabulary. */
  method StructureReasons(r: Reviewer, v: Value, known: set<Value>) returns (reasons: seq<ReviewCode>)
    requires Covers(r) && InVocabulary(r.vocabulary, v) && OperatorsCovered(r, v)
    ensures reasons == [] <==>
      && !(r.policy.rejectRedundant && Redundant(r, Operators(v))) && !Mismatched(r, Operators(v), Field(v))
      && |Operators(v)| <= r.policy.maxDepth && |Operators(v)| <= r.policy.maxOperators && v !in known
    ensures MalformedTree !in reasons
  {
    reasons := [];
    if r.policy.rejectRedundant {
      var redundant := HasRedundantIdentity(r, v);
      if redundant {
        reasons := reasons + [RedundantIdentity];
      }
    }
    var dimension, mismatched := Resolve(r, v);
    if mismatched {
      reasons := reasons + [DimensionMismatch];
    }
    var depth := OperatorDepth(v);
    if depth > r.policy.maxDepth {
      reasons := reasons + [DepthExceeded];
    }
    if depth > r.policy.maxOperators {
      reasons := reasons + [ComplexityExceeded];
    }
    if v in known {
      reasons := reasons + [DuplicateCandidate];
    }
  }

  method Review(r: Reviewer, v: Value, known: set<Value>) returns (outcome: ReviewOutcome)
    requires Covers(r)
    ensures outcome.definition == Shown(v) && (outcome.accepted <==> outcome.reasons == [])
    ensures outcome.accepted <==> Acceptable(r, v, known)
    ensures MalformedTree in outcome.reasons <==> !WellFormed(v)
  {
    if !WellFormed(v) {
      return ReviewOutcome(Shown(v), false, [MalformedTree]);
    }
    NoReasonsExact(r, v);
    var reasons := VocabularyReasons(r, v);
    NeverMalformed(r, v);
    if reasons != [] {
      return ReviewOutcome(v, false, reasons);
    }
    VocabularyCovered(r, v);
    reasons := StructureReasons(r, v, known);
    return ReviewOutcome(v, reasons == [], reasons);
  }

  lemma {:induction false} NeverMalformed(r: Reviewer, v: Value)
    requires WellFormed(v)
    ensures MalformedTree !in VocabularyReasons(r, v)
  {
    if !IsLeaf(v) {
      NeverMalformed(r, v.entries["input"]);
    }
  }

  /** `review_batch`: each candidate on its own, except that repeats of a well-formed one are duplicates. */
  method ReviewBatch(r: Reviewer, definitions: seq<Value>, known: set<Value>) returns (outcomes: seq<ReviewOutcome>)
    requires Covers(r)
    ensures |outcomes| == |definitions|
    ensures forall i :: 0 <= i < |definitions| ==> outcomes[i].definition == Shown(definitions[i])
    ensures forall i :: 0 <= i < |definitions| ==>
      (outcomes[i].accepted <==> Acceptable(r, definitions[i], known) && definitions[i] !in definitions[..i])
  {
    outcomes := [];
    var seen: set<Value> := {};
    for i := 0 to |definitions|
      invariant |outcomes| == i
      invariant forall v :: v in seen <==> v in definitions[..i] && WellFormed(v)
      invariant forall j :: 0 <= j < i ==> outcomes[j].definition == Shown(definitions[j])
      invariant forall j :: 0 <= j < i ==> (outcomes[j].accepted <==> Acceptable(r, definitions[j], known) && definitions[j] !in definitions[..j])
    {
      var v := definitions[i];
      assert definitions[..i + 1] == definitions[..i] + [v];
      if WellFormed(v) && v in seen {
        outcomes := outcomes + [ReviewOutcome(Shown(v), false, [DuplicateCandidate])];
      } else {
        if WellFormed(v) {
          seen := seen + {v};
        }
        var outcome := Review(r, v, known);
        outcomes := outcomes + [outcome];
      }
    }
  }

  /** What the gate lets through has no repeats, within the batch or with what is known. */
  lemma AcceptedAreFresh(r: Reviewer, definitions: seq<Value>, known: set<Value>, outcomes: seq<ReviewOutcome>, i: nat, j: nat)
    requires Covers(r) && |outcomes| == |definitions| && i < j < |definitions|
    requires forall k :: 0 <= k < |definitions| ==>
      (outcomes[k].accepted <==> Acceptable(r, definitions[k], known) && definitions[k] !in definitions[..k])
    requires outcomes[i].accepted && outcomes[j].accepted
    ensures definitions[i] != definitions[j] && definitions[i] !in known
  {
    assert definitions[..j][i] == definitions[i];
  }

  /** Generation and review agree: what the factory draws itself is never malformed and raises no unknown-name reason. */
  lemma GeneratedIsKnown(r: Reviewer, parents: seq<Value>, step: nat, batch: seq<FactorGeneration.Generated>, i: nat)
    requires FactorGeneration.BatchOk(r.vocabulary, parents, step, batch) && i < |batch| && !batch[i].strategy.LlmMechanism?
    ensures WellFormed(batch[i].definition)
    ensures NoneUnknown(VocabularyReasons(r, batch[i].definition)) && MalformedTree !in VocabularyReasons(r, batch[i].definition)
  {
    UnknownReasonsExact(r, batch[i].definition);
    NeverMalformed(r, batch[i].definition);
  }
}
