// active_agent_platform/workflow.py: the edge map of a definition and Kahn's ordering of it.
// Node ids are integers ordered like the original strings.

module Graphs {
  import opened Sorting

  type Edges = map<int, set<int>>

  ghost predicate Closed(nodes: set<int>, edges: Edges) {
    edges.Keys == nodes && forall n :: n in nodes ==> edges[n] <= nodes
  }

  ghost predicate Walk(edges: Edges, w: seq<int>) {
    |w| > 0 && forall i :: 0 <= i < |w| - 1 ==> w[i] in edges && w[i + 1] in edges[w[i]]
  }

  ghost predicate Cycle(edges: Edges, w: seq<int>) {
    |w| >= 2 && Walk(edges, w) && w[0] == w[|w| - 1]
  }

  ghost predicate Acyclic(edges: Edges) {
    forall w :: !Cycle(edges, w)
  }

  /** Every node once, and every edge pointing forward. */
  ghost predicate TopologicalOrder(nodes: set<int>, edges: Edges, order: seq<int>) {
    && (forall i, j :: 0 <= i < j < |order| ==> order[i] != order[j])
    && (forall n :: n in order <==> n in nodes)
    && (forall i, j :: 0 <= i < |order| && 0 <= j < |order| && order[i] in edges && order[j] in edges[order[i]] ==> i < j)
  }

  /** A walk visits strictly later positions of a topological order. */
  lemma {:induction false} WalkMovesForward(nodes: set<int>, edges: Edges, order: seq<int>, w: seq<int>) returns (i: nat, j: nat)
    requires Closed(nodes, edges) && TopologicalOrder(nodes, edges, order)
    requires Walk(edges, w) && |w| >= 2
    ensures i < j < |order| && order[i] == w[0] && order[j] == w[|w| - 1]
    decreases |w|
  {
    assert w[0] in edges && w[1] in edges[w[0]];
    i :| 0 <= i < |order| && order[i] == w[0];
    if |w| == 2 {
      j :| 0 <= j < |order| && order[j] == w[1];
    } else {
      var rest := w[1..];
      forall k | 0 <= k < |rest| - 1 ensures rest[k] in edges && rest[k + 1] in edges[rest[k]] {
        assert w[k + 1] in edges && w[k + 2] in edges[w[k + 1]];
      }
      var m;
      m, j := WalkMovesForward(nodes, edges, order, rest);
      assert order[m] == w[1];
    }
  }

  lemma OrderImpliesAcyclic(nodes: set<int>, edges: Edges, order: seq<int>)
    requires Closed(nodes, edges) && TopologicalOrder(nodes, edges, order)
    ensures Acyclic(edges)
  {
    if w :| Cycle(edges, w) {
      var i, j := WalkMovesForward(nodes, edges, order, w);
      assert false;
    }
  }

  lemma {:induction false} Pigeonhole(w: seq<int>, s: set<int>) returns (i: nat, j: nat)
    requires forall k :: 0 <= k < |w| ==> w[k] in s
    requires |w| > |s|
    ensures i < j < |w| && w[i] == w[j]
    decreases |w|
  {
    var last := |w| - 1;
    if k :| 0 <= k < last && w[k] == w[last] {
      i, j := k, last;
    } else {
      assert |s - {w[last]}| == |s| - 1;
      i, j := Pigeonhole(w[..last], s - {w[last]});
    }
  }

  ghost predicate HasPredecessor(edges: Edges, s: set<int>, n: int) {
    exists p :: p in s && p in edges && n in edges[p]
  }

  /** Nobody in `s` can go before all the others. */
  ghost predicate Stuck(edges: Edges, s: set<int>) {
    s != {} && forall n {:trigger HasPredecessor(edges, s, n)} :: n in s ==> HasPredecessor(edges, s, n)
  }

  /** In a stuck set predecessors chain backwards without end. */
  lemma {:induction false} BackwardWalk(edges: Edges, stuck: set<int>, length: nat) returns (w: seq<int>)
    requires Stuck(edges, stuck)
    ensures |w| == length + 1 && Walk(edges, w) && forall k :: 0 <= k < |w| ==> w[k] in stuck
  {
    if length == 0 {
      EmptyOrInhabited(stuck);
      var n :| n in stuck;
      w := [n];
    } else {
      var rest := BackwardWalk(edges, stuck, length - 1);
      assert rest[0] in stuck;
      assert HasPredecessor(edges, stuck, rest[0]);
      var p :| p in stuck && p in edges && rest[0] in edges[p];
      w := [p] + rest;
      forall i | 0 <= i < |w| - 1 ensures w[i] in edges && w[i + 1] in edges[w[i]] {
        if i > 0 {
          assert w[i] == rest[i - 1] && w[i + 1] == rest[i];
        }
      }
    }
  }

  lemma StuckImpliesCycle(edges: Edges, stuck: set<int>)
    requires Stuck(edges, stuck)
    ensures !Acyclic(edges)
  {
    var w := BackwardWalk(edges, stuck, |stuck|);
    var i, j := Pigeonhole(w, stuck);
    var loop := w[i..j + 1];
    forall k | 0 <= k < |loop| - 1 ensures loop[k] in edges && loop[k + 1] in edges[loop[k]] {
      assert loop[k] == w[i + k] && loop[k + 1] == w[i + k + 1];
    }
    assert Cycle(edges, loop);
  }

  ghost function Reversed(nodes: set<int>, edges: Edges): Edges
    requires Closed(nodes, edges)
  {
    map n | n in nodes :: set p | p in nodes && n in edges[p]
  }

  lemma ReverseWalk(nodes: set<int>, edges: Edges, w: seq<int>) returns (v: seq<int>)
    requires Closed(nodes, edges) && Cycle(edges, w)
    ensures Cycle(Reversed(nodes, edges), v)
  {
    v := seq(|w|, i requires 0 <= i < |w| => w[|w| - 1 - i]);
    forall i | 0 <= i < |v| - 1
      ensures v[i] in Reversed(nodes, edges) && v[i + 1] in Reversed(nodes, edges)[v[i]]
    {
      var k := |w| - 2 - i;
      assert w[k] in edges && w[k + 1] in edges[w[k]];
    }
  }

  /** A graph is acyclic exactly when its reversal is. */
  lemma ReverseAcyclic(nodes: set<int>, edges: Edges)
    requires Closed(nodes, edges)
    ensures Acyclic(Reversed(nodes, edges)) <==> Acyclic(edges)
  {
    var back := Reversed(nodes, edges);
    forall n | n in nodes ensures Reversed(nodes, back)[n] == edges[n] {
      assert forall p :: p in Reversed(nodes, back)[n] <==> p in edges[n];
    }
    assert Reversed(nodes, back) == edges;
    if w :| Cycle(edges, w) {
      var v := ReverseWalk(nodes, edges, w);
    }
    if w :| Cycle(back, w) {
      var v := ReverseWalk(nodes, back, w);
    }
  }
}

module Workflow {
  import opened Wrappers
  import opened Graphs

  datatype ParallelPolicy = FailFast | CollectAll | MinSuccess(minimum: nat)

  datatype SubPolicy = Propagate | Continue | Compensate

  type WorkflowKey = (int, int)

  datatype Kind =
    | Skill
    | Condition(thenTargets: seq<int>, elseTargets: seq<int>)
    | Parallel(branches: seq<seq<int>>, policy: ParallelPolicy)
    | Delay
    | SubWorkflow(child: WorkflowKey, failure: SubPolicy, compensation: Option<int>)

  datatype Node = Node(dependsOn: seq<int>, kind: Kind, maxAttempts: int, retryOn: set<string>)

  datatype NamedNode = NamedNode(id: int, node: Node)

  datatype Definition = Definition(key: WorkflowKey, nodes: seq<NamedNode>)

  datatype ValidationError =
    | DuplicateNode | UnknownDependency | UnknownBranchNode | SelfReference | UnknownSubWorkflow
    | MissingCompensation | GraphCycle

  /** The nodes a controller may run itself, hence its extra outgoing edges. */
  function BranchTargets(node: Node): seq<int> {
    match node.kind
    case Condition(t, e) => t + e
    case Parallel(branches, _) => Flatten(branches)
    case SubWorkflow(_, _, Some(c)) => [c]
    case _ => []
  }

  function Flatten(branches: seq<seq<int>>): seq<int> {
    if branches == [] then [] else branches[0] + Flatten(branches[1..])
  }

  lemma {:induction false} FlattenContains(branches: seq<seq<int>>, b: nat, k: nat)
    requires b < |branches| && k < |branches[b]|
    ensures branches[b][k] in Flatten(branches)
  {
    if b > 0 {
      FlattenContains(branches[1..], b - 1, k);
    }
  }

  function Ids(nodes: seq<NamedNode>): set<int> {
    set i | 0 <= i < |nodes| :: nodes[i].id
  }

  /** `b` must come after `a`: `b` depends on `a`, or `a` may run `b` as a branch. */
  ghost predicate MustPrecede(nodes: seq<NamedNode>, a: int, b: int) {
    || (exists i :: 0 <= i < |nodes| && nodes[i].id == b && a in nodes[i].node.dependsOn)
    || (exists i :: 0 <= i < |nodes| && nodes[i].id == a && b in BranchTargets(nodes[i].node))
  }

  ghost predicate IsEdgeMap(nodes: seq<NamedNode>, edges: Edges) {
    && edges.Keys == Ids(nodes)
    && forall a, b :: a in edges ==> (b in edges[a] <==> MustPrecede(nodes, a, b))
  }

  ghost predicate UniqueIds(nodes: seq<NamedNode>) {
    forall i, j :: 0 <= i < j < |nodes| ==> nodes[i].id != nodes[j].id
  }

  /** Every reference made by one node resolves. */
  ghost predicate NodeResolves(d: Definition, node: Node, known: set<WorkflowKey>) {
    && (forall x :: x in node.dependsOn ==> x in Ids(d.nodes))
    && (forall x :: x in BranchTargets(node) ==> x in Ids(d.nodes))
    && (node.kind.SubWorkflow? ==> node.kind.child != d.key && node.kind.child in known)
    && (node.kind.SubWorkflow? && node.kind.failure == Compensate ==> node.kind.compensation.Some?)
  }

  ghost predicate AllResolve(d: Definition, known: set<WorkflowKey>) {
    forall i :: 0 <= i < |d.nodes| ==> NodeResolves(d, d.nodes[i].node, known)
  }

  ghost predicate Resolves(d: Definition, known: set<WorkflowKey>) {
    UniqueIds(d.nodes) && AllResolve(d, known)
  }

  method AddEdges(edges: Edges, sources: seq<int>, target: int) returns (r: Edges)
    requires forall k :: 0 <= k < |sources| ==> sources[k] in edges
    ensures r.Keys == edges.Keys
    ensures forall a, b :: a in edges ==> (b in r[a] <==> b in edges[a] || (b == target && a in sources))
  {
    r := edges;
    for i := 0 to |sources|
      invariant r.Keys == edges.Keys
      invariant forall a, b :: a in edges ==> (b in r[a] <==> b in edges[a] || (b == target && a in sources[..i]))
    {
      assert sources[i] in r.Keys;
      r := r[sources[i] := r[sources[i]] + {target}];
      assert sources[..i + 1] == sources[..i] + [sources[i]];
    }
    assert sources[..|sources|] == sources;
  }

  predicate CompensationGiven(node: Node) {
    node.kind.SubWorkflow? && node.kind.failure == Compensate ==> node.kind.compensation.Some?
  }

  /** The checks `validate` makes on one node's references, in the order it makes them. */
  method CheckReferences(d: Definition, node: Node, ids: set<int>, known: set<WorkflowKey>) returns (e: Option<ValidationError>)
    requires ids == Ids(d.nodes) && CompensationGiven(node)
    ensures e.None? <==> NodeResolves(d, node, known)
  {
    if exists x :: x in node.dependsOn && x !in ids {
      return Some(UnknownDependency);
    }
    if exists x :: x in BranchTargets(node) && x !in ids {
      return Some(UnknownBranchNode);
    }
    if node.kind.SubWorkflow? {
      if node.kind.child == d.key {
        return Some(SelfReference);
      }
      if node.kind.child !in known {
        return Some(UnknownSubWorkflow);
      }
    }
    return None;
  }

  ghost predicate EdgesSoFar(nodes: seq<NamedNode>, i: nat, ids: set<int>, edges: Edges)
    requires i <= |nodes|
  {
    && Closed(ids, edges)
    && forall a, b :: a in edges ==> (b in edges[a] <==> MustPrecede(nodes[..i], a, b))
  }

  /** One round of the edge loop: incoming edges from the dependencies, outgoing ones to the branches. */
  method AddNodeEdges(nodes: seq<NamedNode>, i: nat, ids: set<int>, edges: Edges) returns (r: Edges)
    requires i < |nodes| && ids == Ids(nodes)
    requires forall x :: x in nodes[i].node.dependsOn ==> x in ids
    requires forall x :: x in BranchTargets(nodes[i].node) ==> x in ids
    requires EdgesSoFar(nodes, i, ids, edges)
    ensures EdgesSoFar(nodes, i + 1, ids, r)
  {
    var id, node := nodes[i].id, nodes[i].node;
    assert id in ids;
    forall k | 0 <= k < |node.dependsOn| ensures node.dependsOn[k] in edges {
      var x := node.dependsOn[k];
      assert x in node.dependsOn;
      assert x in ids;
      assert x in edges.Keys;
    }
    r := AddEdges(edges, node.dependsOn, id);
    var targets := set x | x in BranchTargets(node);
    r := r[id := r[id] + targets];
    PrecedenceStep(nodes, i);
    forall a, b | a in r && b in r[a] ensures b in ids {
      assert MustPrecede(nodes[..i], a, b) ==> b in edges[a];
    }
  }

  method CollectIds(nodes: seq<NamedNode>) returns (seen: set<int>, unique: bool)
    ensures unique <==> UniqueIds(nodes)
    ensures unique ==> seen == Ids(nodes)
  {
    seen := {};
    for i := 0 to |nodes|
      invariant forall j :: 0 <= j < i ==> nodes[j].id in seen
      invariant forall n :: n in seen ==> exists j :: 0 <= j < i && nodes[j].id == n
      invariant forall j, k :: 0 <= j < k < i ==> nodes[j].id != nodes[k].id
    {
      if nodes[i].id in seen {
        return seen, false;
      }
      seen := seen + {nodes[i].id};
    }
    assert forall n :: n in Ids(nodes) ==> n in seen;
    assert forall n :: n in seen ==> n in Ids(nodes);
    return seen, true;
  }

  /** The edge loop of `validate`: stops at the first node with a reference that does not resolve. */
  method ConnectNodes(d: Definition, ids: set<int>, known: set<WorkflowKey>) returns (r: Result<Edges, ValidationError>)
    requires ids == Ids(d.nodes)
    requires forall j :: 0 <= j < |d.nodes| ==> CompensationGiven(d.nodes[j].node)
    ensures r.Ok? <==> AllResolve(d, known)
    ensures r.Ok? ==> IsEdgeMap(d.nodes, r.value) && Closed(ids, r.value)
  {
    var nodes := d.nodes;
    var edges: Edges := map n | n in ids :: {};
    for i := 0 to |nodes|
      invariant EdgesSoFar(nodes, i, ids, edges)
      invariant forall j :: 0 <= j < i ==> NodeResolves(d, nodes[j].node, known)
    {
      var problem := CheckReferences(d, nodes[i].node, ids, known);
      if problem.Some? {
        return Err(problem.value);
      }
      edges := AddNodeEdges(nodes, i, ids, edges);
    }
    assert nodes[..|nodes|] == nodes;
    return Ok(edges);
  }

  /** Definition checks and edge building: succeeds exactly when every reference resolves. */
  method BuildEdges(d: Definition, known: set<WorkflowKey>) returns (r: Result<Edges, ValidationError>)
    ensures r.Ok? <==> Resolves(d, known)
    ensures r.Ok? ==> IsEdgeMap(d.nodes, r.value) && Closed(Ids(d.nodes), r.value)
  {
    var nodes := d.nodes;
    for i := 0 to |nodes|
      invariant forall j :: 0 <= j < i ==> CompensationGiven(nodes[j].node)
    {
      if !CompensationGiven(nodes[i].node) {
        assert !NodeResolves(d, nodes[i].node, known);
        return Err(MissingCompensation);
      }
    }
    var seen, unique := CollectIds(nodes);
    if !unique {
      return Err(DuplicateNode);
    }
    r := ConnectNodes(d, seen, known);
  }

  lemma PrecedenceStep(nodes: seq<NamedNode>, i: nat)
    requires i < |nodes|
    ensures forall a, b ::
      MustPrecede(nodes[..i + 1], a, b) <==>
        || MustPrecede(nodes[..i], a, b)
        || (b == nodes[i].id && a in nodes[i].node.dependsOn)
        || (a == nodes[i].id && b in BranchTargets(nodes[i].node))
  {
    var p, q := nodes[..i], nodes[..i + 1];
    assert q == p + [nodes[i]];
    forall a, b
      ensures MustPrecede(q, a, b) <==>
        || MustPrecede(p, a, b)
        || (b == nodes[i].id && a in nodes[i].node.dependsOn)
        || (a == nodes[i].id && b in BranchTargets(nodes[i].node))
    {
      if j :| 0 <= j < |p| && p[j].id == b && a in p[j].node.dependsOn {
        assert q[j].id == b && a in q[j].node.dependsOn;
      }
      if j :| 0 <= j < |p| && p[j].id == a && b in BranchTargets(p[j].node) {
        assert q[j].id == a && b in BranchTargets(q[j].node);
      }
      assert q[i] == nodes[i];
      if j :| 0 <= j < |q| && q[j].id == b && a in q[j].node.dependsOn {
        if j < i { assert p[j].id == b && a in p[j].node.dependsOn; }
      }
      if j :| 0 <= j < |q| && q[j].id == a && b in BranchTargets(q[j].node) {
        if j < i { assert p[j].id == a && b in BranchTargets(p[j].node); }
      }
    }
  }
}

/** `_topological_order`: Kahn's loop with a sorted ready list. */
module Kahn {
  import opened Wrappers
  import opened Sorting
  import opened Graphs
  import opened Workflow

  ghost function Elements(s: seq<int>): set<int> {
    set x | x in s
  }

  ghost function Predecessors(edges: Edges, from: set<int>, n: int): set<int> {
    set p | p in from && p in edges && n in edges[p]
  }

  /** Nodes that may come next once `placed` have been placed. */
  ghost function Available(nodes: set<int>, edges: Edges, placed: set<int>): set<int> {
    set n | n in nodes && n !in placed && Predecessors(edges, nodes - placed, n) == {}
  }

  ghost predicate MinimalAt(nodes: set<int>, edges: Edges, order: seq<int>, k: nat)
    requires k < |order|
  {
    IsMinimum(order[k], Available(nodes, edges, Elements(order[..k])))
  }

  /** Every position holds the smallest node available there. */
  ghost predicate Greedy(nodes: set<int>, edges: Edges, order: seq<int>) {
    forall k {:trigger MinimalAt(nodes, edges, order, k)} :: 0 <= k < |order| ==> MinimalAt(nodes, edges, order, k)
  }

  ghost predicate NoRepeats(order: seq<int>) {
    forall i, j :: 0 <= i < j < |order| ==> order[i] != order[j]
  }

  ghost predicate Placed(nodes: set<int>, remaining: set<int>, order: seq<int>) {
    remaining <= nodes && NoRepeats(order) && Elements(order) == nodes - remaining
  }

  /** Placed nodes have no predecessor left. */
  ghost predicate Settled(edges: Edges, remaining: set<int>, order: seq<int>) {
    forall n :: n in order ==> Predecessors(edges, remaining, n) == {}
  }

  lemma ElementsAppend(order: seq<int>, n: int)
    ensures Elements(order + [n]) == Elements(order) + {n}
  {
  }

  lemma GreedyAppend(nodes: set<int>, edges: Edges, order: seq<int>, n: int)
    requires Greedy(nodes, edges, order)
    requires IsMinimum(n, Available(nodes, edges, Elements(order)))
    ensures Greedy(nodes, edges, order + [n])
  {
    var longer := order + [n];
    forall k | 0 <= k < |longer| ensures MinimalAt(nodes, edges, longer, k) {
      if k < |order| {
        assert longer[..k] == order[..k];
        assert MinimalAt(nodes, edges, order, k);
      } else {
        assert longer[..k] == order;
      }
    }
  }

  ghost predicate LexicographicallyAtMost(a: seq<int>, b: seq<int>) {
    a == b || exists k :: 0 <= k < |a| && k < |b| && a[..k] == b[..k] && a[k] < b[k]
  }

  ghost predicate Counts(nodes: set<int>, edges: Edges, remaining: set<int>, incoming: map<int, int>) {
    incoming.Keys == nodes && forall n :: n in nodes ==> incoming[n] == |Predecessors(edges, remaining, n)|
  }

  ghost predicate ReadyList(nodes: set<int>, remaining: set<int>, incoming: map<int, int>, ready: seq<int>) {
    && incoming.Keys == nodes
    && (forall n :: n in ready <==> n in remaining && n in nodes && incoming[n] == 0)
    && (forall i, j :: 0 <= i < j < |ready| ==> ready[i] < ready[j])
  }

  /** `incoming[target] += 1` for every target of one node. */
  method CountTargets(incoming0: map<int, int>, targets: set<int>) returns (incoming: map<int, int>)
    requires targets <= incoming0.Keys
    ensures incoming.Keys == incoming0.Keys
    ensures forall n :: n in incoming ==> incoming[n] == incoming0[n] + if n in targets then 1 else 0
  {
    incoming := incoming0;
    var left := targets;
    while left != {}
      invariant left <= targets && incoming.Keys == incoming0.Keys
      invariant forall n :: n in incoming ==> incoming[n] == incoming0[n] + if n in targets - left then 1 else 0
    {
      EmptyOrInhabited(left);
      var t :| t in left;
      incoming := incoming[t := incoming[t] + 1];
      left := left - {t};
    }
  }

  method CountIncoming(nodes: set<int>, edges: Edges) returns (incoming: map<int, int>)
    requires Closed(nodes, edges)
    ensures Counts(nodes, edges, nodes, incoming)
  {
    incoming := map n | n in nodes :: 0;
    var todo, counted := nodes, {};
    while todo != {}
      invariant todo !! counted && todo + counted == nodes
      invariant Counts(nodes, edges, counted, incoming)
    {
      EmptyOrInhabited(todo);
      var p :| p in todo;
      var before := incoming;
      incoming := CountTargets(incoming, edges[p]);
      CountsStep(nodes, edges, counted, p, before, incoming);
      todo, counted := todo - {p}, counted + {p};
    }
    assert counted == nodes;
  }

  lemma CountsStep(nodes: set<int>, edges: Edges, from: set<int>, p: int, before: map<int, int>, after: map<int, int>)
    requires Counts(nodes, edges, from, before) && p !in from && p in edges
    requires after.Keys == nodes
    requires forall n :: n in nodes ==> after[n] == before[n] + if n in edges[p] then 1 else 0
    ensures Counts(nodes, edges, from + {p}, after)
  {
    forall n | n in nodes ensures after[n] == |Predecessors(edges, from + {p}, n)| {
      PredecessorsStep(edges, from, p, n);
    }
  }

  lemma CountsUnstep(nodes: set<int>, edges: Edges, from: set<int>, p: int, before: map<int, int>, after: map<int, int>)
    requires Counts(nodes, edges, from + {p}, before) && p !in from && p in edges
    requires after.Keys == nodes
    requires forall n :: n in nodes ==> after[n] == before[n] - if n in edges[p] then 1 else 0
    ensures Counts(nodes, edges, from, after)
  {
    forall n | n in nodes ensures after[n] == |Predecessors(edges, from, n)| {
      PredecessorsStep(edges, from, p, n);
    }
  }

  lemma PredecessorsStep(edges: Edges, from: set<int>, p: int, n: int)
    requires p !in from && p in edges
    ensures |Predecessors(edges, from + {p}, n)| == |Predecessors(edges, from, n)| + if n in edges[p] then 1 else 0
  {
    var a, b := Predecessors(edges, from, n), Predecessors(edges, from + {p}, n);
    if n in edges[p] {
      assert b == a + {p};
    } else {
      assert b == a;
    }
  }

  /** One target loses one predecessor and joins the ready list at zero. */
  method ReleaseOne(nodes: set<int>, ghost remaining: set<int>, t: int, incoming0: map<int, int>, ready0: seq<int>)
    returns (incoming: map<int, int>, ready: seq<int>)
    requires t in nodes && t in remaining
    requires ReadyList(nodes, remaining, incoming0, ready0)
    requires incoming0[t] >= 1
    ensures incoming == incoming0[t := incoming0[t] - 1]
    ensures ReadyList(nodes, remaining, incoming, ready)
  {
    incoming, ready := incoming0[t := incoming0[t] - 1], ready0;
    assert t !in ready;
    if incoming[t] == 0 {
      ready := AppendSorted(ready, t);
    }
  }

  method ReleaseAll(nodes: set<int>, ghost remaining: set<int>, targets: seq<int>, incoming0: map<int, int>, ready0: seq<int>)
    returns (incoming: map<int, int>, ready: seq<int>)
    requires ReadyList(nodes, remaining, incoming0, ready0)
    requires NoRepeats(targets)
    requires forall k :: 0 <= k < |targets| ==> targets[k] in nodes && targets[k] in remaining && incoming0[targets[k]] >= 1
    ensures incoming.Keys == nodes
    ensures forall n :: n in nodes ==> incoming[n] == incoming0[n] - if n in targets then 1 else 0
    ensures ReadyList(nodes, remaining, incoming, ready)
  {
    incoming, ready := incoming0, ready0;
    for i := 0 to |targets|
      invariant incoming.Keys == nodes
      invariant forall n :: n in nodes ==> incoming[n] == incoming0[n] - if n in targets[..i] then 1 else 0
      invariant ReadyList(nodes, remaining, incoming, ready)
    {
      assert targets[..i + 1] == targets[..i] + [targets[i]];
      assert targets[i] !in targets[..i];
      incoming, ready := ReleaseOne(nodes, remaining, targets[i], incoming, ready);
    }
    assert targets[..|targets|] == targets;
  }

  /** The inner loop over the sorted targets of the node just placed. */
  method ReleaseTargets(nodes: set<int>, edges: Edges, node: int, ghost remaining: set<int>, incoming0: map<int, int>, ready0: seq<int>)
    returns (incoming: map<int, int>, ready: seq<int>)
    requires Closed(nodes, edges) && node in nodes && remaining <= nodes && node !in remaining
    requires Counts(nodes, edges, remaining + {node}, incoming0)
    requires ReadyList(nodes, remaining, incoming0, ready0)
    requires edges[node] <= remaining
    ensures Counts(nodes, edges, remaining, incoming)
    ensures ReadyList(nodes, remaining, incoming, ready)
  {
    var targets := SortSet(edges[node]);
    SortSetFacts(edges[node]);
    EveryTargetCounted(nodes, edges, remaining, node, incoming0);
    forall k | 0 <= k < |targets| ensures targets[k] in edges[node] {
      assert targets[k] in targets;
    }
    incoming, ready := ReleaseAll(nodes, remaining, targets, incoming0, ready0);
    CountsUnstep(nodes, edges, remaining, node, incoming0, incoming);
  }

  lemma EveryTargetCounted(nodes: set<int>, edges: Edges, remaining: set<int>, node: int, incoming: map<int, int>)
    requires Counts(nodes, edges, remaining + {node}, incoming) && node !in remaining && node in edges
    ensures forall t :: t in edges[node] && t in nodes ==> incoming[t] >= 1
  {
    forall t | t in edges[node] && t in nodes ensures incoming[t] >= 1 {
      PredecessorsStep(edges, remaining, node, t);
    }
  }

  /** `ready.append(target); ready.sort()`. */
  method AppendSorted(ready: seq<int>, t: int) returns (r: seq<int>)
    requires t !in ready
    requires forall i, j :: 0 <= i < j < |ready| ==> ready[i] < ready[j]
    ensures forall n :: n in r <==> n in ready || n == t
    ensures forall i, j :: 0 <= i < j < |r| ==> r[i] < r[j]
  {
    r := Sort(ready + [t], LeInt);
    SortIsSorted(ready + [t], LeInt);
    assert Distinct(ready + [t]);
    DistinctPermutation(ready + [t], r);
    forall n ensures n in r <==> n in ready || n == t {
      assert n in r <==> n in multiset(ready + [t]);
    }
    forall i, j | 0 <= i < j < |r| ensures r[i] < r[j] {
      assert LeInt(r[i], r[j]);
    }
  }

  /**
   * Succeeds exactly on acyclic graphs, and then returns the lexicographically smallest
   * arrangement in which every edge points forward.
   */
  method TopologicalSort(nodes: set<int>, edges: Edges) returns (r: Result<seq<int>, ValidationError>)
    requires Closed(nodes, edges)
    ensures r.Ok? <==> Acyclic(edges)
    ensures r.Err? ==> r.error == GraphCycle
    ensures r.Ok? ==> TopologicalOrder(nodes, edges, r.value)
    ensures r.Ok? ==> forall q :: TopologicalOrder(nodes, edges, q) ==> LexicographicallyAtMost(r.value, q)
  {
    var incoming := CountIncoming(nodes, edges);
    var sources := set n | n in nodes && incoming[n] == 0;
    var ready := SortSet(sources);
    SortSetFacts(sources);
    var order: seq<int> := [];
    ghost var remaining := nodes;
    while ready != []
      invariant Placed(nodes, remaining, order) && Settled(edges, remaining, order)
      invariant Counts(nodes, edges, remaining, incoming)
      invariant ReadyList(nodes, remaining, incoming, ready)
      invariant Greedy(nodes, edges, order)
      decreases remaining
    {
      var node, rest := ready[0], ready[1..];
      PopReady(nodes, edges, remaining, incoming, ready, order);
      order := order + [node];
      remaining := remaining - {node};
      incoming, ready := ReleaseTargets(nodes, edges, node, remaining, incoming, rest);
    }
    LengthMatches(nodes, remaining, order);
    if |order| != |nodes| {
      StalledHasCycle(nodes, edges, remaining, incoming, ready);
      return Err(GraphCycle);
    }
    GreedyIsSmallest(nodes, edges, order);
    OrderImpliesAcyclic(nodes, edges, order);
    return Ok(order);
  }

  /** Taking the head of the ready list: everything one round of the loop needs to know. */
  lemma PopReady(nodes: set<int>, edges: Edges, remaining: set<int>, incoming: map<int, int>, ready: seq<int>, order: seq<int>)
    requires Closed(nodes, edges)
    requires Placed(nodes, remaining, order) && Settled(edges, remaining, order)
    requires Counts(nodes, edges, remaining, incoming) && ReadyList(nodes, remaining, incoming, ready)
    requires Greedy(nodes, edges, order)
    requires ready != []
    ensures ready[0] in remaining && remaining - {ready[0]} + {ready[0]} == remaining
    ensures edges[ready[0]] <= remaining - {ready[0]}
    ensures Greedy(nodes, edges, order + [ready[0]])
    ensures Placed(nodes, remaining - {ready[0]}, order + [ready[0]])
    ensures Settled(edges, remaining - {ready[0]}, order + [ready[0]])
    ensures ReadyList(nodes, remaining - {ready[0]}, incoming, ready[1..])
  {
    var node := ready[0];
    assert node in ready && ready == [node] + ready[1..];
    NextIsMinimum(nodes, edges, remaining, incoming, ready, order);
    GreedyAppend(nodes, edges, order, node);
    ElementsAppend(order, node);
    assert node !in Elements(order);
    NothingPlacedIsAhead(nodes, edges, remaining, order, node);
    forall n | n in order + [node] ensures Predecessors(edges, remaining - {node}, n) == {} {
      assert Predecessors(edges, remaining - {node}, n) <= Predecessors(edges, remaining, n);
      if n == node {
        assert |Predecessors(edges, remaining, n)| == 0;
      }
    }
  }

  lemma LengthMatches(nodes: set<int>, remaining: set<int>, order: seq<int>)
    requires Placed(nodes, remaining, order)
    ensures |order| == |nodes| <==> remaining == {}
  {
    DistinctSize(order);
    assert |nodes - remaining| == |nodes| - |remaining|;
  }

  lemma {:induction false} DistinctSize(order: seq<int>)
    requires NoRepeats(order)
    ensures |Elements(order)| == |order|
  {
    if order != [] {
      var last := |order| - 1;
      DistinctSize(order[..last]);
      assert order == order[..last] + [order[last]];
      assert Elements(order) == Elements(order[..last]) + {order[last]};
    }
  }

  lemma NextIsMinimum(nodes: set<int>, edges: Edges, remaining: set<int>, incoming: map<int, int>, ready: seq<int>, order: seq<int>)
    requires Counts(nodes, edges, remaining, incoming) && ReadyList(nodes, remaining, incoming, ready)
    requires Placed(nodes, remaining, order)
    requires ready != []
    ensures IsMinimum(ready[0], Available(nodes, edges, Elements(order)))
  {
    assert nodes - Elements(order) == remaining;
    var available := Available(nodes, edges, Elements(order));
    forall n ensures n in available <==> n in ready {
      if n in nodes {
        assert |Predecessors(edges, remaining, n)| == 0 <==> Predecessors(edges, remaining, n) == {};
      }
    }
    assert ready[0] in ready;
    forall n | n in available ensures ready[0] <= n {
      var k :| 0 <= k < |ready| && ready[k] == n;
    }
  }

  lemma NothingPlacedIsAhead(nodes: set<int>, edges: Edges, remaining: set<int>, order: seq<int>, node: int)
    requires Closed(nodes, edges) && node in remaining
    requires Placed(nodes, remaining, order) && Settled(edges, remaining, order)
    requires |Predecessors(edges, remaining, node)| == 0
    ensures edges[node] <= remaining - {node}
  {
    forall t | t in edges[node] ensures t in remaining - {node} {
      assert t in nodes;
      assert node in Predecessors(edges, remaining, t);
      assert t in Elements(order) || t in remaining;
    }
  }

  lemma StalledHasCycle(nodes: set<int>, edges: Edges, remaining: set<int>, incoming: map<int, int>, ready: seq<int>)
    requires Closed(nodes, edges) && remaining <= nodes && remaining != {}
    requires Counts(nodes, edges, remaining, incoming) && ReadyList(nodes, remaining, incoming, ready)
    requires ready == []
    ensures !Acyclic(edges)
  {
    forall n | n in remaining ensures HasPredecessor(edges, remaining, n) {
      assert n !in ready;
      var preds := Predecessors(edges, remaining, n);
      EmptyOrInhabited(preds);
      assert |preds| != 0;
      var p :| p in preds;
    }
    StuckImpliesCycle(edges, remaining);
  }

  lemma GreedyIsSmallest(nodes: set<int>, edges: Edges, order: seq<int>)
    requires Closed(nodes, edges) && Greedy(nodes, edges, order)
    requires Placed(nodes, {}, order)
    ensures TopologicalOrder(nodes, edges, order)
    ensures forall q :: TopologicalOrder(nodes, edges, q) ==> LexicographicallyAtMost(order, q)
  {
    assert nodes - {} == nodes;
    forall n ensures n in order <==> n in nodes {
      assert n in order <==> n in Elements(order);
    }
    forall i, j | 0 <= i < |order| && 0 <= j < |order| && order[i] in edges && order[j] in edges[order[i]]
      ensures i < j
    {
      EdgePointsForward(nodes, edges, order, i, j);
    }
    forall q | TopologicalOrder(nodes, edges, q) ensures LexicographicallyAtMost(order, q) {
      DistinctSize(order);
      DistinctSize(q);
      assert Elements(q) == nodes;
      FirstDifference(nodes, edges, order, q, 0);
    }
  }

  /** An available node has all its predecessors behind it. */
  lemma EdgePointsForward(nodes: set<int>, edges: Edges, order: seq<int>, i: nat, j: nat)
    requires Greedy(nodes, edges, order) && NoRepeats(order) && i < |order| && j < |order|
    requires order[i] in nodes && order[i] in edges && order[j] in edges[order[i]]
    ensures i < j
  {
    var p, n, earlier := order[i], order[j], Elements(order[..j]);
    assert MinimalAt(nodes, edges, order, j);
    assert p !in Predecessors(edges, nodes - earlier, n);
    assert p in earlier;
    var k :| 0 <= k < j && order[..j][k] == p;
    assert order[k] == order[i];
  }

  lemma FirstDifference(nodes: set<int>, edges: Edges, order: seq<int>, q: seq<int>, k: nat)
    requires Closed(nodes, edges) && Greedy(nodes, edges, order) && TopologicalOrder(nodes, edges, q)
    requires |order| == |q| && k <= |q| && order[..k] == q[..k]
    ensures LexicographicallyAtMost(order, q)
    decreases |q| - k
  {
    if k == |q| {
      assert order == order[..k] && q == q[..k];
    } else if order[k] == q[k] {
      assert order[..k + 1] == order[..k] + [order[k]] && q[..k + 1] == q[..k] + [q[k]];
      FirstDifference(nodes, edges, order, q, k + 1);
    } else {
      NextOfAnyOrderIsAvailable(nodes, edges, q, k);
      assert MinimalAt(nodes, edges, order, k);
      assert order[k] < q[k];
    }
  }

  lemma NextOfAnyOrderIsAvailable(nodes: set<int>, edges: Edges, q: seq<int>, k: nat)
    requires Closed(nodes, edges) && TopologicalOrder(nodes, edges, q) && k < |q|
    ensures q[k] in Available(nodes, edges, Elements(q[..k]))
  {
    assert q[k] in q;
    assert q[k] !in q[..k];
    forall p | p in nodes && p !in Elements(q[..k]) ensures q[k] !in edges[p] {
      assert p in q;
      var i :| 0 <= i < |q| && q[i] == p;
    }
    assert Predecessors(edges, nodes - Elements(q[..k]), q[k]) == {};
  }

  /** `validate` as far as the graph goes: references, edges, order. */
  method ValidateGraph(d: Definition, known: set<WorkflowKey>) returns (r: Result<seq<int>, ValidationError>)
    ensures r.Ok? ==> Resolves(d, known) && ValidatedOrder(d.nodes, r.value)
    ensures r.Err? && r.error != GraphCycle ==> !Resolves(d, known)
    ensures r.Err? && r.error == GraphCycle && Resolves(d, known) ==> forall order :: !ValidatedOrder(d.nodes, order)
  {
    var built := BuildEdges(d, known);
    if built.Err? {
      return Err(built.error);
    }
    var edges := built.value;
    r := TopologicalSort(Ids(d.nodes), edges);
    if r.Ok? {
      OrderRespectsPrecedence(d.nodes, edges, r.value);
    } else {
      forall order ensures !ValidatedOrder(d.nodes, order) {
        if ValidatedOrder(d.nodes, order) {
          PrecedenceGivesOrder(d.nodes, edges, order);
          OrderImpliesAcyclic(Ids(d.nodes), edges, order);
        }
      }
    }
  }

  /** An order of all ids in which dependencies and controllers come first. */
  ghost predicate ValidatedOrder(nodes: seq<NamedNode>, order: seq<int>) {
    && (forall i, j :: 0 <= i < j < |order| ==> order[i] != order[j])
    && (forall n :: n in order <==> n in Ids(nodes))
    && (forall i, j :: 0 <= i < |order| && 0 <= j < |order| && MustPrecede(nodes, order[i], order[j]) ==> i < j)
  }

  lemma OrderRespectsPrecedence(nodes: seq<NamedNode>, edges: Edges, order: seq<int>)
    requires IsEdgeMap(nodes, edges) && TopologicalOrder(Ids(nodes), edges, order)
    ensures ValidatedOrder(nodes, order)
  {
    forall i, j | 0 <= i < |order| && 0 <= j < |order| && MustPrecede(nodes, order[i], order[j]) ensures i < j {
      assert order[i] in order;
      assert order[j] in edges[order[i]];
    }
  }

  lemma PrecedenceGivesOrder(nodes: seq<NamedNode>, edges: Edges, order: seq<int>)
    requires IsEdgeMap(nodes, edges) && ValidatedOrder(nodes, order)
    ensures TopologicalOrder(Ids(nodes), edges, order)
  {
  }
}
