// active_agent_platform/plan_validation.py: the recursive cycle check over task dependencies.

module PlanValidation {
  import opened Wrappers
  import opened Sorting
  import opened Graphs
  import opened Workflow
  import opened Kahn

  type Dependencies = map<int, seq<int>>

  ghost predicate Known(deps: Dependencies) {
    forall t, k :: t in deps && 0 <= k < |deps[t]| ==> deps[t][k] in deps
  }

  /** The dependency graph: an edge from a task to each task it waits for. */
  ghost function DependencyEdges(deps: Dependencies): Edges {
    map t | t in deps :: set k | 0 <= k < |deps[t]| :: deps[t][k]
  }

  lemma DependencyEdgesClosed(deps: Dependencies)
    requires Known(deps)
    ensures Closed(deps.Keys, DependencyEdges(deps))
  {
  }

  /** The two sets of the source, with the recursion stack and the finishing order they stand for. */
  class CycleCheck {
    const deps: Dependencies
    var visiting: set<int>
    var visited: set<int>
    ghost var stack: seq<int>
    ghost var finished: seq<int>

    constructor (deps: Dependencies)
      requires Known(deps)
      ensures Valid() && this.deps == deps && visiting == {} && visited == {} && stack == []
    {
      this.deps := deps;
      visiting, visited, stack, finished := {}, {}, [], [];
    }

    ghost predicate Valid()
      reads this
    {
      && Known(deps)
      && visiting <= deps.Keys && visited <= deps.Keys && visiting !! visited
      && Elements(stack) == visiting && NoRepeats(stack)
      && (stack != [] ==> Walk(DependencyEdges(deps), stack))
      && Elements(finished) == visited && NoRepeats(finished)
      && DependenciesFinishedFirst(deps, finished)
    }

    /** The inner `visit`. A refusal comes with a cycle; otherwise the node and all it needs are finished. */
    method Visit(node: int) returns (ok: bool)
      requires Valid() && node in deps
      requires stack != [] ==> node in DependencyEdges(deps)[stack[|stack| - 1]]
      modifies this
      ensures ok ==> Valid() && visiting == old(visiting) && stack == old(stack)
      ensures ok ==> old(visited) <= visited && node in visited
      ensures !ok ==> !Acyclic(DependencyEdges(deps))
      decreases deps.Keys - visiting
    {
      ghost var edges := DependencyEdges(deps);
      if node in visiting {
        assert node in Elements(stack);
        StackClosesCycle(edges, stack, node);
        return false;
      }
      if node in visited {
        return true;
      }
      ghost var stack0, visiting0 := stack, visiting;
      visiting := visiting + {node};
      PushExtendsWalk(edges, stack, node);
      ElementsAppend(stack, node);
      assert node !in Elements(stack);
      stack := stack + [node];
      for i := 0 to |deps[node]|
        invariant Valid() && stack == stack0 + [node] && visiting == visiting0 + {node}
        invariant old(visited) <= visited
        invariant forall k :: 0 <= k < i ==> deps[node][k] in visited
      {
        assert stack[|stack| - 1] == node && deps[node][i] in edges[node];
        var fine := Visit(deps[node][i]);
        if !fine {
          return false;
        }
      }
      FinishNode(deps, finished, node);
      ElementsAppend(finished, node);
      assert node !in Elements(finished);
      visiting, visited := visiting - {node}, visited + {node};
      stack, finished := stack0, finished + [node];
      assert Elements(stack0) == visiting0;
      return true;
    }
  }

  /** Reverse topological order: whatever a finished task waits for finished before it. */
  ghost predicate DependenciesFinishedFirst(deps: Dependencies, finished: seq<int>) {
    forall i, k :: 0 <= i < |finished| && finished[i] in deps && 0 <= k < |deps[finished[i]]|
      ==> deps[finished[i]][k] in finished[..i]
  }

  lemma FinishNode(deps: Dependencies, finished: seq<int>, node: int)
    requires node in deps && DependenciesFinishedFirst(deps, finished)
    requires forall k :: 0 <= k < |deps[node]| ==> deps[node][k] in Elements(finished)
    ensures DependenciesFinishedFirst(deps, finished + [node])
  {
    var longer := finished + [node];
    forall i, k | 0 <= i < |longer| && longer[i] in deps && 0 <= k < |deps[longer[i]]|
      ensures deps[longer[i]][k] in longer[..i]
    {
      if i < |finished| {
        assert longer[..i] == finished[..i];
      } else {
        assert longer[..i] == finished;
      }
    }
  }

  lemma PushExtendsWalk(edges: Edges, stack: seq<int>, node: int)
    requires stack != [] ==> Walk(edges, stack) && stack[|stack| - 1] in edges && node in edges[stack[|stack| - 1]]
    ensures Walk(edges, stack + [node])
  {
  }

  lemma StackClosesCycle(edges: Edges, stack: seq<int>, node: int)
    requires node in stack && Walk(edges, stack)
    requires stack[|stack| - 1] in edges && node in edges[stack[|stack| - 1]]
    ensures !Acyclic(edges)
  {
    var i :| 0 <= i < |stack| && stack[i] == node;
    var tail := stack[i..];
    forall k | 0 <= k < |tail| - 1 ensures tail[k] in edges && tail[k + 1] in edges[tail[k]] {
      assert stack[i + k] in edges && stack[i + k + 1] in edges[stack[i + k]];
    }
    PushExtendsWalk(edges, tail, node);
    assert Cycle(edges, tail + [node]);
  }

  lemma FinishingOrderProvesAcyclic(deps: Dependencies, finished: seq<int>)
    requires Known(deps) && DependenciesFinishedFirst(deps, finished) && NoRepeats(finished)
    requires Elements(finished) == deps.Keys
    ensures Acyclic(DependencyEdges(deps))
  {
    var edges := DependencyEdges(deps);
    DependencyEdgesClosed(deps);
    ReverseAcyclic(deps.Keys, edges);
    var back := Reversed(deps.Keys, edges);
    forall n ensures n in finished <==> n in deps.Keys {
      assert n in finished <==> n in Elements(finished);
    }
    forall i, j | 0 <= i < |finished| && 0 <= j < |finished| && finished[i] in back && finished[j] in back[finished[i]]
      ensures i < j
    {
      var k :| 0 <= k < |deps[finished[j]]| && deps[finished[j]][k] == finished[i];
      assert finished[i] in finished[..j];
    }
    assert Closed(deps.Keys, back);
    OrderImpliesAcyclic(deps.Keys, back, finished);
  }

  /** `_assert_acyclic`: terminates, and accepts exactly the dependency maps without a cycle. */
  method AssertAcyclic(deps: Dependencies) returns (ok: bool)
    requires Known(deps)
    ensures ok <==> Acyclic(DependencyEdges(deps))
  {
    var check := new CycleCheck(deps);
    var todo := deps.Keys;
    while todo != {}
      invariant check.Valid() && check.deps == deps && check.stack == [] && check.visiting == {}
      invariant todo <= deps.Keys && deps.Keys - todo <= check.visited
    {
      EmptyOrInhabited(todo);
      var node :| node in todo;
      var fine := check.Visit(node);
      if !fine {
        return false;
      }
      todo := todo - {node};
    }
    FinishingOrderProvesAcyclic(deps, check.finished);
    return true;
  }

  /**
   * The two cycle checks of the platform agree: the recursive search over dependencies accepts
   * exactly the graphs on which Kahn's loop over the opposite edges produces an order.
   */
  method ChecksAgree(deps: Dependencies, forward: Edges) returns (dfs: bool, kahn: Result<seq<int>, ValidationError>)
    requires Known(deps)
    requires forward == Reversed(deps.Keys, DependencyEdges(deps))
    ensures dfs <==> kahn.Ok?
    ensures dfs <==> Acyclic(DependencyEdges(deps))
  {
    DependencyEdgesClosed(deps);
    ReverseAcyclic(deps.Keys, DependencyEdges(deps));
    dfs := AssertAcyclic(deps);
    kahn := TopologicalSort(deps.Keys, forward);
  }
}
