// domain_sdk/dna_composer.py: the sub-workflow graph of a composition and the limits put on it.

module GraphMetrics {
  import opened Wrappers

  type Key = (int, int)

  /** A stored definition, as far as the graph goes: its node count and its sub-workflow nodes in order. */
  datatype Entry = Entry(own: nat, children: seq<Key>)

  type Catalog = map<Key, Entry>

  datatype Metrics = Metrics(depth: nat, nodes: nat)

  datatype GraphError = CycleFound | Unavailable

  function Larger(a: nat, b: nat): nat { if a < b then b else a }

  function Deepest(m: seq<Metrics>): nat {
    if m == [] then 0 else Larger(m[0].depth, Deepest(m[1..]))
  }

  function Total(m: seq<Metrics>): nat {
    if m == [] then 0 else m[0].nodes + Total(m[1..])
  }

  lemma PathShrinksRest(catalog: Catalog, path: set<Key>, key: Key)
    requires key in catalog && key !in path
    ensures |catalog.Keys - (path + {key})| < |catalog.Keys - path|
  {
    assert catalog.Keys - (path + {key}) == (catalog.Keys - path) - {key};
  }

  /** `visit`: the catalog keys not yet on the path are what keeps the recursion finite. */
  function Visit(catalog: Catalog, key: Key, path: set<Key>): Result<Metrics, GraphError>
    decreases |catalog.Keys - path|, 1, 0
  {
    if key in path then Err(CycleFound)
    else if key !in catalog then Err(Unavailable)
    else
      var entry := catalog[key];
      if entry.children == [] then Ok(Metrics(1, entry.own))
      else
        PathShrinksRest(catalog, path, key);
        var below := VisitAll(catalog, entry.children, path + {key});
        if below.Err? then Err(below.error)
        else Ok(Metrics(1 + Deepest(below.value), entry.own + Total(below.value)))
  }

  function VisitAll(catalog: Catalog, keys: seq<Key>, path: set<Key>): (r: Result<seq<Metrics>, GraphError>)
    ensures r.Ok? ==> |r.value| == |keys|
    decreases |catalog.Keys - path|, 2, |keys|
  {
    if keys == [] then Ok([])
    else
      var first := Visit(catalog, keys[0], path);
      if first.Err? then Err(first.error)
      else
        var rest := VisitAll(catalog, keys[1..], path);
        if rest.Err? then Err(rest.error) else Ok([first.value] + rest.value)
  }

  // ---- Walks through the graph.

  ghost predicate Child(catalog: Catalog, a: Key, b: Key) {
    a in catalog && b in catalog[a].children
  }

  /** A way down from `start`. */
  ghost predicate Walk(catalog: Catalog, start: Key, w: seq<Key>) {
    |w| > 0 && w[0] == start && forall i :: 0 <= i < |w| - 1 ==> Child(catalog, w[i], w[i + 1])
  }

  /** It meets no key twice, none outside the catalog and none of `path`. */
  ghost predicate Clean(catalog: Catalog, path: set<Key>, w: seq<Key>) {
    && (forall i, j :: 0 <= i < j < |w| ==> w[i] != w[j])
    && (forall i :: 0 <= i < |w| ==> w[i] in catalog && w[i] !in path)
  }

  ghost predicate AllClean(catalog: Catalog, start: Key, path: set<Key>) {
    forall w :: Walk(catalog, start, w) ==> Clean(catalog, path, w)
  }

  lemma WalkTail(catalog: Catalog, start: Key, w: seq<Key>)
    requires Walk(catalog, start, w) && |w| > 1
    ensures Child(catalog, start, w[1]) && Walk(catalog, w[1], w[1..])
  {
    assert Child(catalog, w[0], w[0 + 1]);
    var t := w[1..];
    forall i | 0 <= i < |t| - 1 ensures Child(catalog, t[i], t[i + 1]) {
      assert Child(catalog, w[i + 1], w[i + 2]);
    }
  }

  lemma WalkCons(catalog: Catalog, start: Key, w: seq<Key>)
    requires |w| > 0 && Child(catalog, start, w[0]) && Walk(catalog, w[0], w)
    ensures Walk(catalog, start, [start] + w)
  {
    var u := [start] + w;
    forall i | 0 <= i < |u| - 1 ensures Child(catalog, u[i], u[i + 1]) {
      if i > 0 {
        assert Child(catalog, w[i - 1], w[i]);
      }
    }
  }

  /** All ways down from `key` are clean exactly when `key` is new and known and all ways from its children are. */
  lemma CleanStep(catalog: Catalog, key: Key, path: set<Key>)
    ensures AllClean(catalog, key, path) <==>
      key !in path && key in catalog && forall c :: c in catalog[key].children ==> AllClean(catalog, c, path + {key})
  {
    if AllClean(catalog, key, path) {
      assert Walk(catalog, key, [key]);
      assert Clean(catalog, path, [key]);
      assert [key][0] in catalog;
      forall c | c in catalog[key].children ensures AllClean(catalog, c, path + {key}) {
        forall w | Walk(catalog, c, w) ensures Clean(catalog, path + {key}, w) {
          WalkCons(catalog, key, w);
          var u := [key] + w;
          assert Clean(catalog, path, u);
          forall i | 0 <= i < |w| ensures w[i] in catalog && w[i] !in path + {key} {
            assert u[i + 1] == w[i] && u[0] == key;
          }
          forall i, j | 0 <= i < j < |w| ensures w[i] != w[j] {
            assert u[i + 1] == w[i] && u[j + 1] == w[j];
          }
        }
      }
    }
    if key !in path && key in catalog && forall c :: c in catalog[key].children ==> AllClean(catalog, c, path + {key}) {
      forall w | Walk(catalog, key, w) ensures Clean(catalog, path, w) {
        if |w| > 1 {
          WalkTail(catalog, key, w);
          var t := w[1..];
          assert AllClean(catalog, w[1], path + {key});
          assert Clean(catalog, path + {key}, t);
          forall i | 0 <= i < |w| ensures w[i] in catalog && w[i] !in path {
            if i > 0 { assert t[i - 1] == w[i]; }
          }
          forall i, j | 0 <= i < j < |w| ensures w[i] != w[j] {
            assert t[j - 1] == w[j];
            if i > 0 { assert t[i - 1] == w[i]; }
          }
        }
      }
    }
  }

  /** `visit` succeeds exactly when no way down meets a cycle, the path or a missing reference. */
  lemma {:induction false} VisitExact(catalog: Catalog, key: Key, path: set<Key>)
    ensures Visit(catalog, key, path).Ok? <==> AllClean(catalog, key, path)
    decreases |catalog.Keys - path|, 1, 0
  {
    CleanStep(catalog, key, path);
    if key !in path && key in catalog {
      PathShrinksRest(catalog, path, key);
      VisitAllExact(catalog, catalog[key].children, path + {key});
    }
  }

  lemma {:induction false} VisitAllExact(catalog: Catalog, keys: seq<Key>, path: set<Key>)
    ensures VisitAll(catalog, keys, path).Ok? <==> forall k :: k in keys ==> AllClean(catalog, k, path)
    decreases |catalog.Keys - path|, 2, |keys|
  {
    if keys != [] {
      VisitExact(catalog, keys[0], path);
      VisitAllExact(catalog, keys[1..], path);
      assert forall k :: k in keys <==> k == keys[0] || k in keys[1..];
    }
  }

  // ---- What the numbers mean: the full unfolding of the graph.

  /** The tree obtained by replacing every sub-workflow node by its definition, again and again. */
  datatype Tree = Tree(key: Key, below: seq<Tree>)

  ghost predicate IsUnfolding(catalog: Catalog, key: Key, t: Tree)
    decreases t
  {
    t.key == key && key in catalog && AreUnfoldings(catalog, catalog[key].children, t.below)
  }

  ghost predicate AreUnfoldings(catalog: Catalog, keys: seq<Key>, ts: seq<Tree>)
    decreases ts
  {
    |ts| == |keys| && (ts != [] ==> IsUnfolding(catalog, keys[0], ts[0]) && AreUnfoldings(catalog, keys[1..], ts[1..]))
  }

  ghost function Height(t: Tree): nat { 1 + HeightAll(t.below) }

  ghost function HeightAll(ts: seq<Tree>): nat {
    if ts == [] then 0 else Larger(Height(ts[0]), HeightAll(ts[1..]))
  }

  /** Workflow nodes in the whole tree. */
  ghost function Size(catalog: Catalog, t: Tree): nat {
    (if t.key in catalog then catalog[t.key].own else 0) + SizeAll(catalog, t.below)
  }

  ghost function SizeAll(catalog: Catalog, ts: seq<Tree>): nat {
    if ts == [] then 0 else Size(catalog, ts[0]) + SizeAll(catalog, ts[1..])
  }

  /** The unfolding is a finite tree of the reported depth and size. */
  lemma {:induction false} VisitUnfolds(catalog: Catalog, key: Key, path: set<Key>) returns (t: Tree)
    requires Visit(catalog, key, path).Ok?
    ensures IsUnfolding(catalog, key, t)
    ensures Visit(catalog, key, path) == Ok(Metrics(Height(t), Size(catalog, t)))
    decreases |catalog.Keys - path|, 1, 0
  {
    PathShrinksRest(catalog, path, key);
    var ts := VisitAllUnfolds(catalog, catalog[key].children, path + {key});
    t := Tree(key, ts);
  }

  lemma {:induction false} VisitAllUnfolds(catalog: Catalog, keys: seq<Key>, path: set<Key>) returns (ts: seq<Tree>)
    requires VisitAll(catalog, keys, path).Ok?
    ensures AreUnfoldings(catalog, keys, ts)
    ensures var m := VisitAll(catalog, keys, path).value; Deepest(m) == HeightAll(ts) && Total(m) == SizeAll(catalog, ts)
    decreases |catalog.Keys - path|, 2, |keys|
  {
    if keys == [] {
      ts := [];
    } else {
      var first := VisitUnfolds(catalog, keys[0], path);
      var rest := VisitAllUnfolds(catalog, keys[1..], path);
      ts := [first] + rest;
      var m := VisitAll(catalog, keys, path).value;
      assert m[1..] == VisitAll(catalog, keys[1..], path).value;
      assert ts[1..] == rest;
    }
  }

  /** A key has at most one unfolding. */
  lemma {:induction false} UnfoldingUnique(catalog: Catalog, key: Key, a: Tree, b: Tree)
    requires IsUnfolding(catalog, key, a) && IsUnfolding(catalog, key, b)
    ensures a == b
    decreases a, 0
  {
    UnfoldingsUnique(catalog, catalog[key].children, a.below, b.below);
  }

  lemma {:induction false} UnfoldingsUnique(catalog: Catalog, keys: seq<Key>, a: seq<Tree>, b: seq<Tree>)
    requires AreUnfoldings(catalog, keys, a) && AreUnfoldings(catalog, keys, b)
    ensures a == b
    decreases a, |a|
  {
    if a != [] {
      UnfoldingUnique(catalog, keys[0], a[0], b[0]);
      UnfoldingsUnique(catalog, keys[1..], a[1..], b[1..]);
      assert a == [a[0]] + a[1..] && b == [b[0]] + b[1..];
    }
  }

  /** The depth is the length of the longest way down. */
  ghost predicate LongestWalk(catalog: Catalog, start: Key, n: nat) {
    && (exists w :: Walk(catalog, start, w) && |w| == n)
    && (forall w :: Walk(catalog, start, w) ==> |w| <= n)
  }

  lemma {:induction false} HeightBoundsWalks(catalog: Catalog, key: Key, t: Tree, w: seq<Key>)
    requires IsUnfolding(catalog, key, t) && Walk(catalog, key, w)
    ensures |w| <= Height(t)
    decreases |w|
  {
    if |w| > 1 {
      WalkTail(catalog, key, w);
      var i :| 0 <= i < |catalog[key].children| && catalog[key].children[i] == w[1];
      UnfoldingAt(catalog, catalog[key].children, t.below, i);
      HeightBoundsWalks(catalog, w[1], t.below[i], w[1..]);
    }
  }

  lemma {:induction false} UnfoldingAt(catalog: Catalog, keys: seq<Key>, ts: seq<Tree>, i: nat)
    requires AreUnfoldings(catalog, keys, ts) && i < |keys|
    ensures IsUnfolding(catalog, keys[i], ts[i]) && Height(ts[i]) <= HeightAll(ts)
    decreases |ts|
  {
    if i > 0 {
      UnfoldingAt(catalog, keys[1..], ts[1..], i - 1);
    }
  }

  lemma {:induction false} TallestBelow(catalog: Catalog, keys: seq<Key>, ts: seq<Tree>) returns (i: nat)
    requires AreUnfoldings(catalog, keys, ts) && ts != []
    ensures i < |ts| && Height(ts[i]) == HeightAll(ts)
    decreases |ts|
  {
    if |ts| == 1 || Height(ts[0]) >= HeightAll(ts[1..]) {
      i := 0;
    } else {
      i := TallestBelow(catalog, keys[1..], ts[1..]);
      i := i + 1;
    }
  }

  lemma {:induction false} LongestExists(catalog: Catalog, key: Key, t: Tree) returns (w: seq<Key>)
    requires IsUnfolding(catalog, key, t)
    ensures Walk(catalog, key, w) && |w| == Height(t)
    decreases t
  {
    if t.below == [] {
      w := [key];
    } else {
      var i := TallestBelow(catalog, catalog[key].children, t.below);
      UnfoldingAt(catalog, catalog[key].children, t.below, i);
      var v := LongestExists(catalog, catalog[key].children[i], t.below[i]);
      WalkCons(catalog, key, v);
      w := [key] + v;
    }
  }

  lemma DepthIsLongestWalk(catalog: Catalog, key: Key, path: set<Key>)
    requires Visit(catalog, key, path).Ok?
    ensures LongestWalk(catalog, key, Visit(catalog, key, path).value.depth)
  {
    var t := VisitUnfolds(catalog, key, path);
    var w := LongestExists(catalog, key, t);
    forall v | Walk(catalog, key, v) ensures |v| <= Height(t) {
      HeightBoundsWalks(catalog, key, t, v);
    }
  }
}

module DnaComposer {
  import opened Wrappers
  import opened GraphMetrics
  import DnaRecords
  import Workflow
  import Kahn

  datatype Mode = Sequential | Parallel

  /** One skill node's constraints; side effects are ranked PURE 0 to NON_REPLAYABLE 3. */
  datatype Skill = Skill(permissions: set<int>, sideEffect: nat)

  /** `inputFits` is what comparing the input mapping with the schemas comes to. */
  datatype Component = Component(alias: int, key: Key, entry: Entry, status: DnaRecords.Status, capabilities: set<int>,
                                 skills: seq<Skill>, timeout: nat, parallelism: nat, inputFits: bool)

  datatype Limits = Limits(maxComponents: nat, maxNodes: nat, maxDepth: nat, maxTimeout: nat, maxParallelism: nat,
                           allowedCapabilities: Option<set<int>>, allowedPermissions: set<int>, maxSideEffect: nat)
  {
    predicate Valid() {
      1 <= maxComponents <= 4 && maxNodes >= 1 && maxDepth >= 1 && maxTimeout >= 1 && maxParallelism >= 1 && maxSideEffect <= 3
    }
  }

  datatype Composition = Composition(entry: Entry, timeout: nat, parallelism: nat, capabilities: set<int>)

  datatype CompositionError =
    | ComponentCount | TooFewForParallel | DuplicateAlias | InvalidSchema | NotComposable | InputMismatch | DeniedCapability
    | DeniedPermission | SideEffectBoundary | Graph(error: GraphError) | TooDeep | TooManyNodes | TimeoutBudget
    | ParallelismBudget | PolicyLimits | InvalidWorkflow(problem: Workflow.ValidationError) | UnknownOutput

  predicate Composable(s: DnaRecords.Status) {
    s in {DnaRecords.Validated, DnaRecords.Shadow, DnaRecords.Canary, DnaRecords.Active, DnaRecords.Deprecated}
  }

  function Roots(components: seq<Component>): (r: seq<Key>)
    ensures |r| == |components|
  {
    if components == [] then [] else Roots(components[..|components| - 1]) + [components[|components| - 1].key]
  }

  /** Later definitions of a key replace earlier ones, so `available` wins over the components themselves. */
  function CatalogOf(components: seq<Component>, available: seq<(Key, Entry)>): Catalog {
    if available != [] then
      CatalogOf(components, available[..|available| - 1])[available[|available| - 1].0 := available[|available| - 1].1]
    else if components != [] then
      CatalogOf(components[..|components| - 1], [])[components[|components| - 1].key := components[|components| - 1].entry]
    else map[]
  }

  // ---- What the components ask for together.

  function Capabilities(components: seq<Component>): set<int> {
    set i, c | 0 <= i < |components| && c in components[i].capabilities :: c
  }

  ghost predicate Permits(limits: Limits, components: seq<Component>) {
    forall i, k :: 0 <= i < |components| && 0 <= k < |components[i].skills| ==>
      components[i].skills[k].permissions <= limits.allowedPermissions && components[i].skills[k].sideEffect <= limits.maxSideEffect
  }

  function SumTimeouts(components: seq<Component>): nat {
    if components == [] then 0 else SumTimeouts(components[..|components| - 1]) + components[|components| - 1].timeout
  }

  function MaxTimeout(components: seq<Component>): nat {
    if components == [] then 0 else Larger(MaxTimeout(components[..|components| - 1]), components[|components| - 1].timeout)
  }

  function SumParallelism(components: seq<Component>): nat {
    if components == [] then 0 else SumParallelism(components[..|components| - 1]) + components[|components| - 1].parallelism
  }

  function MaxParallelism(components: seq<Component>): nat {
    if components == [] then 0 else Larger(MaxParallelism(components[..|components| - 1]), components[|components| - 1].parallelism)
  }

  /** One after another the timeouts add up; side by side the parallelism does. */
  function RequiredTimeout(components: seq<Component>, mode: Mode): nat {
    if mode.Sequential? then SumTimeouts(components) else MaxTimeout(components)
  }

  function RequiredParallelism(components: seq<Component>, mode: Mode): nat {
    if mode.Sequential? then MaxParallelism(components) else SumParallelism(components)
  }

  datatype Demands = Demands(capabilities: set<int>, permissions: set<int>, sideEffect: nat, sumTimeout: nat, maxTimeout: nat,
                             sumParallelism: nat, maxParallelism: nat)

  function PermissionsOf(skills: seq<Skill>): set<int> {
    if skills == [] then {} else PermissionsOf(skills[..|skills| - 1]) + skills[|skills| - 1].permissions
  }

  function RiskOf(skills: seq<Skill>): nat {
    if skills == [] then 0 else Larger(RiskOf(skills[..|skills| - 1]), skills[|skills| - 1].sideEffect)
  }

  lemma {:induction false} SkillsWithin(skills: seq<Skill>, allowed: set<int>, bound: nat)
    ensures PermissionsOf(skills) <= allowed && RiskOf(skills) <= bound <==>
      forall k :: 0 <= k < |skills| ==> skills[k].permissions <= allowed && skills[k].sideEffect <= bound
    decreases |skills|
  {
    if skills != [] {
      var init := skills[..|skills| - 1];
      SkillsWithin(init, allowed, bound);
      assert forall k :: 0 <= k < |init| ==> init[k] == skills[k];
    }
  }

  /** The permissions and side effects collected so far stay within the limits exactly when every skill does. */
  ghost predicate PermitsMatch(components: seq<Component>, limits: Limits, permissions: set<int>, sideEffect: nat) {
    permissions <= limits.allowedPermissions && sideEffect <= limits.maxSideEffect <==> Permits(limits, components)
  }

  ghost predicate Collected(components: seq<Component>, limits: Limits, d: Demands) {
    && d.capabilities == Capabilities(components)
    && PermitsMatch(components, limits, d.permissions, d.sideEffect)
    && d.sumTimeout == SumTimeouts(components) && d.maxTimeout == MaxTimeout(components)
    && d.sumParallelism == SumParallelism(components) && d.maxParallelism == MaxParallelism(components)
  }

  function AddDemands(d: Demands, c: Component): Demands {
    Demands(d.capabilities + c.capabilities, d.permissions + PermissionsOf(c.skills), Larger(d.sideEffect, RiskOf(c.skills)),
            d.sumTimeout + c.timeout, Larger(d.maxTimeout, c.timeout), d.sumParallelism + c.parallelism, Larger(d.maxParallelism, c.parallelism))
  }

  lemma CapabilitiesStep(components: seq<Component>, c: Component)
    ensures Capabilities(components + [c]) == Capabilities(components) + c.capabilities
  {
    var all := components + [c];
    assert all[|components|] == c;
    forall x ensures x in Capabilities(all) <==> x in Capabilities(components) + c.capabilities {
      if x in Capabilities(components) {
        var i :| 0 <= i < |components| && x in components[i].capabilities;
        assert all[i] == components[i];
      }
      if x in Capabilities(all) {
        var i :| 0 <= i < |all| && x in all[i].capabilities;
        assert i < |components| ==> components[i] == all[i];
      }
    }
  }

  ghost predicate SkillsPermitted(limits: Limits, skills: seq<Skill>) {
    forall k :: 0 <= k < |skills| ==> skills[k].permissions <= limits.allowedPermissions && skills[k].sideEffect <= limits.maxSideEffect
  }

  lemma PermitsStep(limits: Limits, components: seq<Component>, c: Component)
    ensures Permits(limits, components + [c]) <==> Permits(limits, components) && SkillsPermitted(limits, c.skills)
  {
    var all := components + [c];
    assert all[|components|] == c;
    if Permits(limits, all) {
      forall i, k | 0 <= i < |components| && 0 <= k < |components[i].skills|
        ensures components[i].skills[k].permissions <= limits.allowedPermissions && components[i].skills[k].sideEffect <= limits.maxSideEffect
      {
        assert all[i] == components[i];
      }
    }
  }

  lemma PermitsMatchStep(components: seq<Component>, limits: Limits, permissions: set<int>, sideEffect: nat, c: Component)
    requires PermitsMatch(components, limits, permissions, sideEffect)
    ensures PermitsMatch(components + [c], limits, permissions + PermissionsOf(c.skills), Larger(sideEffect, RiskOf(c.skills)))
  {
    PermitsStep(limits, components, c);
    SkillsWithin(c.skills, limits.allowedPermissions, limits.maxSideEffect);
  }

  lemma SumsStep(components: seq<Component>, c: Component)
    ensures SumTimeouts(components + [c]) == SumTimeouts(components) + c.timeout
    ensures MaxTimeout(components + [c]) == Larger(MaxTimeout(components), c.timeout)
    ensures SumParallelism(components + [c]) == SumParallelism(components) + c.parallelism
    ensures MaxParallelism(components + [c]) == Larger(MaxParallelism(components), c.parallelism)
  {
    var all := components + [c];
    assert all[..|all| - 1] == components;
  }

  lemma CollectedStep(components: seq<Component>, limits: Limits, d: Demands, c: Component)
    requires Collected(components, limits, d)
    ensures Collected(components + [c], limits, AddDemands(d, c))
  {
    SumsStep(components, c);
    CapabilitiesStep(components, c);
    PermitsMatchStep(components, limits, d.permissions, d.sideEffect, c);
  }

  ghost predicate AllUsable(components: seq<Component>) {
    forall i :: 0 <= i < |components| ==> Composable(components[i].status) && components[i].inputFits
  }

  /** The component loop of `compose`. */
  method Collect(components: seq<Component>, limits: Limits) returns (d: Demands, e: Option<CompositionError>)
    ensures e.None? <==> AllUsable(components)
    ensures e.None? ==> Collected(components, limits, d)
  {
    d := Demands({}, {}, 0, 0, 0, 0, 0);
    for i := 0 to |components|
      invariant Collected(components[..i], limits, d)
      invariant forall j :: 0 <= j < i ==> Composable(components[j].status) && components[j].inputFits
    {
      if !Composable(components[i].status) {
        return d, Some(NotComposable);
      }
      if !components[i].inputFits {
        return d, Some(InputMismatch);
      }
      assert components[..i + 1] == components[..i] + [components[i]];
      CollectedStep(components[..i], limits, d, components[i]);
      d := AddDemands(d, components[i]);
    }
    assert components[..|components|] == components;
    return d, None;
  }

  // ---- The composed workflow.

  /** The id of the node that starts the branches of a parallel composition. */
  const GATE := 0

  const POLICY_TIMEOUT: nat := 3600
  const POLICY_PARALLELISM: nat := 32

  function Gate(components: seq<Component>): Workflow.NamedNode {
    Workflow.NamedNode(GATE, Workflow.Node([], Workflow.Kind.Parallel(
      seq(|components|, i requires 0 <= i < |components| => [components[i].alias]), Workflow.FailFast), 1, {}))
  }

  /** What the node of a component waits for. */
  function WaitsFor(components: seq<Component>, mode: Mode, i: nat): seq<int>
    requires i < |components|
  {
    if mode.Parallel? then [GATE] else if i == 0 then [] else [components[i - 1].alias]
  }

  function ChildNode(c: Component, dependsOn: seq<int>): Workflow.NamedNode {
    Workflow.NamedNode(c.alias, Workflow.Node(dependsOn, Workflow.SubWorkflow(c.key, Workflow.Propagate, None), 1, {}))
  }

  /** Where the children start. */
  function First(mode: Mode): nat {
    if mode.Parallel? then 1 else 0
  }

  predicate ChildAt(nodes: seq<Workflow.NamedNode>, components: seq<Component>, mode: Mode, i: nat)
    requires i < |components| && |nodes| == |components| + First(mode)
  {
    nodes[i + First(mode)] == ChildNode(components[i], WaitsFor(components, mode, i))
  }

  /** The gate, if any, and then a node for each component. */
  ghost predicate IsComposed(nodes: seq<Workflow.NamedNode>, components: seq<Component>, mode: Mode) {
    && |nodes| == |components| + First(mode)
    && (mode.Parallel? ==> nodes[0] == Gate(components))
    && forall i: nat {:trigger ChildAt(nodes, components, mode, i)} :: i < |components| ==> ChildAt(nodes, components, mode, i)
  }

  /** The composed nodes: every component once, run as a sub-workflow whose failure counts, without retries; in sequence each
      waits for the one before, in parallel all wait for a gate that fails as soon as one of them does. */
  lemma ComposedNodes(nodes: seq<Workflow.NamedNode>, components: seq<Component>, mode: Mode, i: nat)
    requires IsComposed(nodes, components, mode) && i < |components|
    ensures var child := nodes[if mode.Parallel? then i + 1 else i];
      && child.id == components[i].alias && child.node.kind == Workflow.SubWorkflow(components[i].key, Workflow.Propagate, None)
      && child.node.maxAttempts == 1 && child.node.retryOn == {}
      && child.node.dependsOn == if mode.Parallel? then [GATE] else if i == 0 then [] else [components[i - 1].alias]
    ensures mode.Parallel? ==>
      (var gate := nodes[0];
       && gate.id == GATE && gate.node.dependsOn == [] && gate.node.maxAttempts == 1 && gate.node.kind.Parallel?
       && gate.node.kind.policy == Workflow.FailFast && |gate.node.kind.branches| == |components|
       && gate.node.kind.branches[i] == [components[i].alias])
  {
    assert ChildAt(nodes, components, mode, i);
  }

  /** `_nodes`. */
  method BuildNodes(components: seq<Component>, mode: Mode) returns (nodes: seq<Workflow.NamedNode>)
    ensures IsComposed(nodes, components, mode)
  {
    nodes := if mode.Parallel? then [Gate(components)] else [];
    var previous: Option<int> := None;
    for i := 0 to |components|
      invariant previous == if i == 0 then None else Some(components[i - 1].alias)
      invariant |nodes| == i + First(mode) && (mode.Parallel? ==> nodes[0] == Gate(components))
      invariant forall k :: First(mode) <= k < |nodes| ==>
        nodes[k] == ChildNode(components[k - First(mode)], WaitsFor(components, mode, k - First(mode)))
    {
      var depends := if mode.Parallel? then [GATE] else if previous.Some? then [previous.value] else [];
      nodes := nodes + [ChildNode(components[i], depends)];
      previous := Some(components[i].alias);
    }
  }

  ghost predicate UniqueAliases(components: seq<Component>) {
    forall i, j :: 0 <= i < j < |components| ==> components[i].alias != components[j].alias
  }

  /** What the composed workflow can still fail on once its components are known to be there. */
  predicate WellNamed(own: Key, components: seq<Component>, mode: Mode) {
    && (forall i :: 0 <= i < |components| ==> components[i].key != own)
    && (mode.Parallel? ==> forall i :: 0 <= i < |components| ==> components[i].alias != GATE)
  }

  /** The order of the nodes as they are listed. */
  function ListedOrder(nodes: seq<Workflow.NamedNode>): (order: seq<int>)
    ensures |order| == |nodes| && forall i :: 0 <= i < |nodes| ==> order[i] == nodes[i].id
  {
    seq(|nodes|, i requires 0 <= i < |nodes| => nodes[i].id)
  }

  lemma {:induction false} SingleTargets(branches: seq<seq<int>>, components: seq<Component>)
    requires |branches| == |components| && forall i :: 0 <= i < |components| ==> branches[i] == [components[i].alias]
    ensures forall x :: x in Workflow.Flatten(branches) <==> exists i :: 0 <= i < |components| && components[i].alias == x
  {
    if branches != [] {
      SingleTargets(branches[1..], components[1..]);
      assert forall i :: 1 <= i < |components| ==> components[i] == components[1..][i - 1];
    }
  }

  /** The targets of the gate are the aliases; nobody else runs anything. */
  lemma GateTargets(components: seq<Component>)
    ensures forall x :: x in Workflow.BranchTargets(Gate(components).node) <==> exists i :: 0 <= i < |components| && components[i].alias == x
  {
    SingleTargets(Gate(components).node.kind.branches, components);
  }

  /** A node is the gate or the node of one component. */
  lemma NodeIs(nodes: seq<Workflow.NamedNode>, components: seq<Component>, mode: Mode, k: nat)
    requires IsComposed(nodes, components, mode) && k < |nodes|
    ensures if k < First(mode) then nodes[k] == Gate(components)
            else nodes[k] == ChildNode(components[k - First(mode)], WaitsFor(components, mode, k - First(mode)))
    ensures nodes[k].id == if k < First(mode) then GATE else components[k - First(mode)].alias
    ensures if k < First(mode) then nodes[k].node.dependsOn == [] else Workflow.BranchTargets(nodes[k].node) == []
  {
    if k >= First(mode) {
      assert ChildAt(nodes, components, mode, k - First(mode));
    }
  }

  lemma ComposedIds(nodes: seq<Workflow.NamedNode>, components: seq<Component>, mode: Mode)
    requires IsComposed(nodes, components, mode) && UniqueAliases(components)
    ensures Workflow.UniqueIds(nodes) <==> (mode.Parallel? ==> forall i :: 0 <= i < |components| ==> components[i].alias != GATE)
    ensures forall i :: 0 <= i < |components| ==> components[i].alias in Workflow.Ids(nodes)
    ensures mode.Parallel? ==> GATE in Workflow.Ids(nodes)
  {
    forall k: nat | k < |nodes| ensures nodes[k].id == if k < First(mode) then GATE else components[k - First(mode)].alias {
      NodeIs(nodes, components, mode, k);
    }
    forall i | 0 <= i < |components| ensures components[i].alias in Workflow.Ids(nodes) && nodes[i + First(mode)].id == components[i].alias {
      assert nodes[i + First(mode)].id == components[i].alias;
    }
    if Workflow.UniqueIds(nodes) && mode.Parallel? {
      forall i | 0 <= i < |components| ensures components[i].alias != GATE {
        assert nodes[0].id != nodes[i + 1].id;
      }
    }
  }

  lemma ChildResolves(d: Workflow.Definition, components: seq<Component>, mode: Mode, known: set<Key>, i: nat)
    requires IsComposed(d.nodes, components, mode) && UniqueAliases(components) && i < |components| && components[i].key in known
    ensures Workflow.NodeResolves(d, d.nodes[i + First(mode)].node, known) <==> components[i].key != d.key
  {
    ComposedIds(d.nodes, components, mode);
    assert ChildAt(d.nodes, components, mode, i);
  }

  lemma GateResolves(d: Workflow.Definition, components: seq<Component>, mode: Mode, known: set<Key>)
    requires IsComposed(d.nodes, components, mode) && UniqueAliases(components) && mode.Parallel?
    ensures Workflow.NodeResolves(d, d.nodes[0].node, known)
  {
    ComposedIds(d.nodes, components, mode);
    GateTargets(components);
  }

  /** All references of the composed workflow resolve exactly if it is well named. */
  lemma ComposedResolves(d: Workflow.Definition, components: seq<Component>, mode: Mode, known: set<Key>)
    requires IsComposed(d.nodes, components, mode)
    requires UniqueAliases(components) && forall i :: 0 <= i < |components| ==> components[i].key in known
    ensures Workflow.Resolves(d, known) <==> WellNamed(d.key, components, mode)
  {
    ComposedIds(d.nodes, components, mode);
    if WellNamed(d.key, components, mode) {
      forall k: nat | k < |d.nodes| ensures Workflow.NodeResolves(d, d.nodes[k].node, known) {
        if k < First(mode) {
          GateResolves(d, components, mode, known);
        } else {
          ChildResolves(d, components, mode, known, k - First(mode));
        }
      }
    } else if Workflow.Resolves(d, known) {
      forall i: nat | i < |components| ensures components[i].key != d.key {
        ChildResolves(d, components, mode, known, i);
      }
    }
  }

  /** A dependency is listed before the node that waits for it, and only the gate runs others. */
  lemma ListedBefore(nodes: seq<Workflow.NamedNode>, components: seq<Component>, mode: Mode, i: nat, j: nat)
    requires IsComposed(nodes, components, mode) && Workflow.UniqueIds(nodes) && i < |nodes| && j < |nodes|
    requires nodes[i].id in nodes[j].node.dependsOn || nodes[j].id in Workflow.BranchTargets(nodes[i].node)
    ensures i < j
  {
    NodeIs(nodes, components, mode, i);
    NodeIs(nodes, components, mode, j);
    if j >= First(mode) && nodes[i].id in nodes[j].node.dependsOn {
      if mode.Parallel? {
        assert nodes[0].id == GATE;
      } else {
        NodeIs(nodes, components, mode, j - 1);
      }
    } else {
      GateTargets(components);
      assert mode.Parallel? && i == 0;
      var k :| 0 <= k < |components| && components[k].alias == nodes[j].id;
      NodeIs(nodes, components, mode, k + 1);
    }
  }

  /** Its nodes can run in the order in which they are listed, so the composed graph never has a cycle. */
  lemma ListedOrderWorks(nodes: seq<Workflow.NamedNode>, components: seq<Component>, mode: Mode)
    requires IsComposed(nodes, components, mode) && Workflow.UniqueIds(nodes)
    ensures Kahn.ValidatedOrder(nodes, ListedOrder(nodes))
  {
    var order := ListedOrder(nodes);
    forall i, j | 0 <= i < |order| && 0 <= j < |order| && Workflow.MustPrecede(nodes, order[i], order[j]) ensures i < j {
      OwnPrecedence(nodes, i, j);
      ListedBefore(nodes, components, mode, i, j);
    }
    forall n ensures n in order <==> n in Workflow.Ids(nodes) {
      if n in Workflow.Ids(nodes) {
        var i :| 0 <= i < |nodes| && nodes[i].id == n;
        assert order[i] == n;
      }
    }
  }

  lemma OwnPrecedence(nodes: seq<Workflow.NamedNode>, i: nat, j: nat)
    requires Workflow.UniqueIds(nodes) && i < |nodes| && j < |nodes| && Workflow.MustPrecede(nodes, nodes[i].id, nodes[j].id)
    ensures nodes[i].id in nodes[j].node.dependsOn || nodes[j].id in Workflow.BranchTargets(nodes[i].node)
  {
    if k :| 0 <= k < |nodes| && nodes[k].id == nodes[j].id && nodes[i].id in nodes[k].node.dependsOn {
      assert k == j;
    } else {
      var k :| 0 <= k < |nodes| && nodes[k].id == nodes[i].id && nodes[j].id in Workflow.BranchTargets(nodes[k].node);
      assert k == i;
    }
  }

  lemma RootsAreKeys(components: seq<Component>)
    ensures forall i :: 0 <= i < |components| ==> Roots(components)[i] == components[i].key
  {
    if components != [] {
      RootsAreKeys(components[..|components| - 1]);
    }
  }

  lemma {:induction false} RootsKnown(catalog: Catalog, keys: seq<Key>)
    requires VisitAll(catalog, keys, {}).Ok?
    ensures forall i :: 0 <= i < |keys| ==> keys[i] in catalog
  {
    if keys != [] {
      RootsKnown(catalog, keys[1..]);
      assert forall i :: 1 <= i < |keys| ==> keys[i] == keys[1..][i - 1];
    }
  }

  /** The final validation of the composed workflow: only a bad name can fail it. */
  method ValidateComposed(own: Key, components: seq<Component>, mode: Mode, catalog: Catalog) returns (problem: Option<Workflow.ValidationError>)
    requires UniqueAliases(components) && forall i :: 0 <= i < |components| ==> components[i].key in catalog
    ensures problem.None? <==> WellNamed(own, components, mode)
  {
    var nodes := BuildNodes(components, mode);
    var order := Kahn.ValidateGraph(Workflow.Definition(own, nodes), catalog.Keys);
    ComposedResolves(Workflow.Definition(own, nodes), components, mode, catalog.Keys);
    if Workflow.UniqueIds(nodes) {
      ListedOrderWorks(nodes, components, mode);
    }
    return if order.Err? then Some(order.error) else None;
  }

  function OwnNodes(components: seq<Component>, mode: Mode): nat {
    |components| + if mode.Parallel? then 1 else 0
  }

  ghost predicate Governed(components: seq<Component>, limits: Limits) {
    && (limits.allowedCapabilities.Some? ==> Capabilities(components) <= limits.allowedCapabilities.value)
    && Permits(limits, components)
  }

  ghost predicate Shaped(components: seq<Component>, limits: Limits, mode: Mode) {
    && 1 <= |components| <= limits.maxComponents && (mode.Parallel? ==> |components| >= 2)
    && UniqueAliases(components) && AllUsable(components)
  }

  /** The graph below the roots is finite, complete, and within depth and size. */
  ghost predicate GraphWithin(catalog: Catalog, roots: seq<Key>, own: nat, limits: Limits) {
    && (forall k :: k in roots ==> AllClean(catalog, k, {}))
    && (VisitAll(catalog, roots, {}).Ok? ==>
          Deepest(VisitAll(catalog, roots, {}).value) <= limits.maxDepth && Total(VisitAll(catalog, roots, {}).value) + own <= limits.maxNodes)
  }

  /** What is asked for, or else required, covers the children and stays within the limit and the workflow policy's own range. */
  predicate Budget(asked: Option<nat>, required: nat, limit: nat, policy: nat) {
    var actual := if asked.Some? then asked.value else required;
    required <= actual <= limit && 1 <= actual <= policy
  }

  // ---- The checks of `compose`, in its order.

  method CheckShape(components: seq<Component>, limits: Limits, mode: Mode) returns (e: Option<CompositionError>)
    ensures e.None? <==>
      1 <= |components| <= limits.maxComponents && (mode.Parallel? ==> |components| >= 2) && UniqueAliases(components)
  {
    if !(1 <= |components| <= limits.maxComponents) {
      return Some(ComponentCount);
    }
    if mode.Parallel? && |components| < 2 {
      return Some(TooFewForParallel);
    }
    if exists i, j :: 0 <= i < j < |components| && components[i].alias == components[j].alias {
      return Some(DuplicateAlias);
    }
    return None;
  }

  method CheckGovernance(components: seq<Component>, limits: Limits, d: Demands) returns (e: Option<CompositionError>)
    requires Collected(components, limits, d)
    ensures e.None? <==> Governed(components, limits)
  {
    if limits.allowedCapabilities.Some? && !(d.capabilities <= limits.allowedCapabilities.value) {
      return Some(DeniedCapability);
    }
    if !(d.permissions <= limits.allowedPermissions) {
      return Some(DeniedPermission);
    }
    if d.sideEffect > limits.maxSideEffect {
      return Some(SideEffectBoundary);
    }
    return None;
  }

  method CheckGraph(catalog: Catalog, roots: seq<Key>, own: nat, limits: Limits) returns (e: Option<CompositionError>)
    ensures e.None? <==> GraphWithin(catalog, roots, own, limits)
    ensures e.None? ==> forall i :: 0 <= i < |roots| ==> roots[i] in catalog
  {
    var metrics := VisitAll(catalog, roots, {});
    VisitAllExact(catalog, roots, {});
    if metrics.Err? {
      return Some(Graph(metrics.error));
    }
    RootsKnown(catalog, roots);
    if Deepest(metrics.value) > limits.maxDepth {
      return Some(TooDeep);
    }
    if Total(metrics.value) + own > limits.maxNodes {
      return Some(TooManyNodes);
    }
    return None;
  }

  /** What is asked for, or else required, if it covers the children within the limit. */
  method Affordable(asked: Option<nat>, required: nat, limit: nat) returns (r: Option<nat>)
    ensures var actual := if asked.Some? then asked.value else required;
      r == if required <= actual <= limit then Some(actual) else None
  {
    var actual := if asked.Some? then asked.value else required;
    return if actual < required || actual > limit then None else Some(actual);
  }

  /** `compose`: accepts exactly what passes every limit, and asks for enough to run every child. Whether the input schema
      is an object schema and the output mapping names known nodes is given. */
  method Compose(own: Key, components: seq<Component>, available: seq<(Key, Entry)>, limits: Limits, mode: Mode,
                 timeout: Option<nat>, parallelism: Option<nat>, schemaOk: bool, outputsOk: bool)
    returns (r: Result<Composition, CompositionError>)
    requires limits.Valid()
    ensures r.Ok? <==>
      && schemaOk && outputsOk && WellNamed(own, components, mode)
      && Shaped(components, limits, mode) && Governed(components, limits)
      && GraphWithin(CatalogOf(components, available), Roots(components), OwnNodes(components, mode), limits)
      && Budget(timeout, RequiredTimeout(components, mode), limits.maxTimeout, POLICY_TIMEOUT)
      && Budget(parallelism, RequiredParallelism(components, mode), limits.maxParallelism, POLICY_PARALLELISM)
    ensures r.Ok? ==> r.value.entry == Entry(OwnNodes(components, mode), Roots(components))
    ensures r.Ok? ==> RequiredTimeout(components, mode) <= r.value.timeout <= limits.maxTimeout
    ensures r.Ok? ==> RequiredParallelism(components, mode) <= r.value.parallelism <= limits.maxParallelism
    ensures r.Ok? ==> r.value.capabilities == Capabilities(components)
  {
    var misshapen := CheckShape(components, limits, mode);
    if misshapen.Some? {
      return Err(misshapen.value);
    }
    if !schemaOk {
      return Err(InvalidSchema);
    }
    var d, unusable := Collect(components, limits);
    if unusable.Some? {
      return Err(unusable.value);
    }
    var denied := CheckGovernance(components, limits, d);
    if denied.Some? {
      return Err(denied.value);
    }
    var catalog, roots := CatalogOf(components, available), Roots(components);
    var ownNodes := |components| + if mode.Parallel? then 1 else 0;
    var misfit := CheckGraph(catalog, roots, ownNodes, limits);
    if misfit.Some? {
      return Err(misfit.value);
    }
    var actualTimeout := Affordable(timeout, if mode.Sequential? then d.sumTimeout else d.maxTimeout, limits.maxTimeout);
    if actualTimeout.None? {
      return Err(TimeoutBudget);
    }
    var actualParallelism := Affordable(parallelism, if mode.Sequential? then d.maxParallelism else d.sumParallelism, limits.maxParallelism);
    if actualParallelism.None? {
      return Err(ParallelismBudget);
    }
    if !(1 <= actualTimeout.value <= POLICY_TIMEOUT) || !(1 <= actualParallelism.value <= POLICY_PARALLELISM) {
      return Err(PolicyLimits);
    }
    RootsAreKeys(components);
    var problem := ValidateComposed(own, components, mode, catalog);
    if problem.Some? {
      return Err(InvalidWorkflow(problem.value));
    }
    if !outputsOk {
      return Err(UnknownOutput);
    }
    return Ok(Composition(Entry(ownNodes, roots), actualTimeout.value, actualParallelism.value, d.capabilities));
  }

  // ---- The composition as a member of the catalog.

  /** A new definition does not change what lies below the old ones. */
  lemma {:induction false} VisitExtends(catalog: Catalog, new_: Key, entry: Entry, key: Key, path: set<Key>)
    requires new_ !in catalog && Visit(catalog, key, path).Ok?
    ensures Visit(catalog[new_ := entry], key, path + {new_}) == Visit(catalog, key, path)
    decreases |catalog.Keys - path|, 1, 0
  {
    PathShrinksRest(catalog, path, key);
    if catalog[key].children != [] {
      VisitAllExtends(catalog, new_, entry, catalog[key].children, path + {key});
      assert path + {key} + {new_} == path + {new_} + {key};
    }
  }

  lemma {:induction false} VisitAllExtends(catalog: Catalog, new_: Key, entry: Entry, keys: seq<Key>, path: set<Key>)
    requires new_ !in catalog && VisitAll(catalog, keys, path).Ok?
    ensures VisitAll(catalog[new_ := entry], keys, path + {new_}) == VisitAll(catalog, keys, path)
    decreases |catalog.Keys - path|, 2, |keys|
  {
    if keys != [] {
      VisitExtends(catalog, new_, entry, keys[0], path);
      VisitAllExtends(catalog, new_, entry, keys[1..], path);
    }
  }

  /** Storing the composition under a new key gives a graph that is again finite and complete, one level deeper
      than its components and no larger than the node limit. */
  lemma CompositionWithinLimits(catalog: Catalog, new_: Key, own: nat, roots: seq<Key>, limits: Limits)
    requires new_ !in catalog && roots != [] && GraphWithin(catalog, roots, own, limits)
    ensures var r := Visit(catalog[new_ := Entry(own, roots)], new_, {});
      r.Ok? && r.value.nodes <= limits.maxNodes && r.value.depth <= limits.maxDepth + 1
  {
    VisitAllExact(catalog, roots, {});
    VisitAllExtends(catalog, new_, Entry(own, roots), roots, {});
    assert {} + {new_} == {new_};
  }
}
