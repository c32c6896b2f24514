// active_agent_platform/workflow_runtime.py: the recursive executor of one workflow run.
// Adapters, clocks and cancellation are nondeterministic choices; branches run one after another.

module WorkflowPlans {
  import opened Workflow
  import opened Kahn

  /** A validated definition: its nodes by id and the stored topological order. */
  datatype Plan = Plan(nodes: map<int, Node>, order: seq<int>)

  /** Where `n` stands in the order, or its length. */
  function Position(order: seq<int>, n: int): (i: nat)
    ensures i <= |order|
    ensures n in order ==> i < |order| && order[i] == n
  {
    if order == [] || order[0] == n then 0 else 1 + Position(order[1..], n)
  }

  lemma {:induction false} PositionIs(order: seq<int>, i: nat)
    requires i < |order| && NoRepeats(order)
    ensures Position(order, order[i]) == i
  {
    assert order[i] in order;
    var p := Position(order, order[i]);
  }

  ghost predicate Before(plan: Plan, a: int, b: int) {
    Position(plan.order, a) < Position(plan.order, b)
  }

  ghost predicate DependenciesFirst(plan: Plan) {
    forall n, d :: n in plan.nodes && d in plan.nodes[n].dependsOn ==> d in plan.nodes && Before(plan, d, n)
  }

  ghost predicate ControllersFirst(plan: Plan) {
    forall n, t :: n in plan.nodes && t in BranchTargets(plan.nodes[n]) ==> t in plan.nodes && Before(plan, n, t)
  }

  /** What validation leaves behind: dependencies come earlier, branch targets later. */
  ghost predicate Validated(plan: Plan) {
    && NoRepeats(plan.order)
    && (forall n :: n in plan.order <==> n in plan.nodes)
    && DependenciesFirst(plan)
    && ControllersFirst(plan)
    && (forall n :: n in plan.nodes ==> CompensationGiven(plan.nodes[n]))
  }

  function CompensationNodes(plan: Plan): set<int> {
    set n | n in plan.nodes && plan.nodes[n].kind.SubWorkflow? && plan.nodes[n].kind.failure == Compensate
            && plan.nodes[n].kind.compensation.Some? :: plan.nodes[n].kind.compensation.value
  }

  /** What the executor needs beyond validation. */
  ghost predicate Runnable(plan: Plan) {
    && Validated(plan)
    && (forall n, d :: n in plan.nodes && d in plan.nodes[n].dependsOn ==> d !in CompensationNodes(plan))
    && (forall n :: n in plan.nodes ==> plan.nodes[n].maxAttempts >= 1)
  }

  function Find(nodes: seq<NamedNode>, n: int): (i: nat)
    requires n in Ids(nodes)
    ensures i < |nodes| && nodes[i].id == n
  {
    if nodes[0].id == n then 0
    else
      assert n in Ids(nodes[1..]) by {
        var k :| 0 <= k < |nodes| && nodes[k].id == n;
        assert nodes[1..][k - 1].id == n;
      }
      1 + Find(nodes[1..], n)
  }

  function PlanOf(d: Definition, order: seq<int>): Plan {
    Plan(map n | n in Ids(d.nodes) :: d.nodes[Find(d.nodes, n)].node, order)
  }

  lemma PrecedenceIsBefore(d: Definition, order: seq<int>, a: int, b: int)
    requires ValidatedOrder(d.nodes, order) && MustPrecede(d.nodes, a, b)
    requires a in Ids(d.nodes) && b in Ids(d.nodes)
    ensures Before(PlanOf(d, order), a, b)
  {
    assert a in order && b in order;
    assert order[Position(order, a)] == a && order[Position(order, b)] == b;
  }

  lemma DependencyIsBefore(d: Definition, known: set<WorkflowKey>, order: seq<int>, n: int, x: int)
    requires Resolves(d, known) && ValidatedOrder(d.nodes, order)
    requires n in Ids(d.nodes) && x in PlanOf(d, order).nodes[n].dependsOn
    ensures x in Ids(d.nodes) && Before(PlanOf(d, order), x, n)
  {
    var i := Find(d.nodes, n);
    assert NodeResolves(d, d.nodes[i].node, known);
    assert MustPrecede(d.nodes, x, n);
    PrecedenceIsBefore(d, order, x, n);
  }

  lemma TargetIsAfter(d: Definition, known: set<WorkflowKey>, order: seq<int>, n: int, x: int)
    requires Resolves(d, known) && ValidatedOrder(d.nodes, order)
    requires n in Ids(d.nodes) && x in BranchTargets(PlanOf(d, order).nodes[n])
    ensures x in Ids(d.nodes) && Before(PlanOf(d, order), n, x)
  {
    var i := Find(d.nodes, n);
    assert NodeResolves(d, d.nodes[i].node, known);
    assert MustPrecede(d.nodes, n, x);
    PrecedenceIsBefore(d, order, n, x);
  }

  lemma NodesGivenCompensation(d: Definition, known: set<WorkflowKey>, n: int)
    requires AllResolve(d, known) && n in Ids(d.nodes)
    ensures CompensationGiven(d.nodes[Find(d.nodes, n)].node)
  {
    assert NodeResolves(d, d.nodes[Find(d.nodes, n)].node, known);
  }

  /** The order returned by validation makes a plan the executor's recursion can rely on. */
  lemma ValidationGivesPlan(d: Definition, known: set<WorkflowKey>, order: seq<int>)
    requires Resolves(d, known) && ValidatedOrder(d.nodes, order)
    ensures Validated(PlanOf(d, order))
  {
    var plan := PlanOf(d, order);
    assert DependenciesFirst(plan) by {
      forall n, x | n in plan.nodes && x in plan.nodes[n].dependsOn ensures x in plan.nodes && Before(plan, x, n) {
        DependencyIsBefore(d, known, order, n, x);
      }
    }
    assert ControllersFirst(plan) by {
      forall n, x | n in plan.nodes && x in BranchTargets(plan.nodes[n]) ensures x in plan.nodes && Before(plan, n, x) {
        TargetIsAfter(d, known, order, n, x);
      }
    }
    forall n | n in plan.nodes ensures CompensationGiven(plan.nodes[n]) {
      NodesGivenCompensation(d, known, n);
    }
  }
}

/** What the runtime's bookkeeping has to satisfy between two steps, as predicates on plain values. */
module RuntimeState {
  import opened Wrappers
  import opened Workflow
  import opened RunLog
  import opened WorkflowPlans

  type Statuses = map<int, Status>

  /** Exceptions that cross node boundaries; `Raised` is any other one. */
  datatype Signal = WorkflowCancelled | WorkflowTimedOut | BranchCancelled | Raised(code: string)

  datatype Outcome = Completed(ok: bool) | NodeTimedOut | Thrown(signal: Signal)

  /** What the executor sees and decides, in order: a look at cancellation and deadline; an attempt beginning, for whom and
      with the statuses of that moment; an adapter's answer; a condition's value; a child run's end; a fail_fast branch
      failing; a min_success policy met; an attempt's end, as dispatched and as judged; a node given up, or cut short. */
  datatype Event =
    | Checked(found: Option<Signal>)
    | Began(node: int, controller: Option<int>, attempt: nat, seen: Statuses)
    | Answered(node: int, answer: Outcome)
    | Chose(node: int, matched: bool)
    | ChildEnded(node: int, status: Status)
    | FailedFast(node: int, seen: Statuses)
    | Met(node: int, seen: Statuses)
    | Ended(node: int, attempt: nat, returned: Outcome, outcome: Outcome)
    | GaveUp(node: int, attempt: nat, code: string)
    | CutShort(node: int, signal: Signal)

  type History = seq<Event>

  predicate SettledWell(s: Status) {
    Terminal(s) && !ErrorState(s)
  }

  /** Statuses that keep a dependent node from running. */
  predicate Blocks(s: Status) {
    s in {Failed, TimedOut, Cancelled, RequiresReview}
  }

  predicate Satisfied(statuses: Statuses, d: int, controller: Option<int>) {
    d in statuses && (statuses[d] in {Succeeded, Skipped} || (controller == Some(d) && statuses[d] == Running))
  }

  /** One node: its rows are attempts 1..k, all but the last finished, the last one in the cached status. */
  ghost predicate NodeOk(node: Node, status: Status, attempts: seq<Status>, done: bool) {
    && 1 <= |attempts| && |attempts| <= node.maxAttempts
    && attempts[|attempts| - 1] == status && status != Ready
    && (forall i :: 0 <= i < |attempts| - 1 ==> Terminal(attempts[i]))
    && (status == Pending ==> !done && |attempts| == 1)
    && (Terminal(status) ==> done)
  }

  ghost predicate NodeOkAt(plan: Plan, statuses: Statuses, rows: map<int, seq<Status>>, executed: set<int>, n: int) {
    n in plan.nodes && n in statuses && n in rows && NodeOk(plan.nodes[n], statuses[n], rows[n], n in executed)
  }

  ghost predicate Consistent(plan: Plan, statuses: Statuses, rows: map<int, seq<Status>>, executed: set<int>) {
    && statuses.Keys == plan.nodes.Keys && rows.Keys == plan.nodes.Keys && executed <= plan.nodes.Keys
    && forall n {:trigger NodeOkAt(plan, statuses, rows, executed, n)} :: n in plan.nodes ==> NodeOkAt(plan, statuses, rows, executed, n)
  }

  predicate Clean(statuses: Statuses, branch: seq<int>) {
    forall t :: t in branch ==> t in statuses && SettledWell(statuses[t])
  }

  predicate Spoiled(statuses: Statuses, branch: seq<int>) {
    exists t :: t in branch && t in statuses && ErrorState(statuses[t])
  }

  function CleanCount(statuses: Statuses, branches: seq<seq<int>>): (c: nat)
    ensures c <= |branches|
  {
    if branches == [] then 0
    else CleanCount(statuses, branches[..|branches| - 1]) + if Clean(statuses, branches[|branches| - 1]) then 1 else 0
  }

  /** What a parallel node promises about its branches when it succeeds. */
  predicate PolicyMet(statuses: Statuses, branches: seq<seq<int>>, policy: ParallelPolicy) {
    match policy
    case MinSuccess(minimum) => CleanCount(statuses, branches) >= minimum
    case _ => CleanCount(statuses, branches) == |branches|
  }

  /** A parallel node marked SUCCEEDED kept its promise. */
  ghost predicate HonestAt(plan: Plan, statuses: Statuses, p: int) {
    (p in plan.nodes && p in statuses && statuses[p] == Succeeded && plan.nodes[p].kind.Parallel?) ==>
      PolicyMet(statuses, plan.nodes[p].kind.branches, plan.nodes[p].kind.policy)
  }

  ghost predicate Honest(plan: Plan, statuses: Statuses) {
    forall p {:trigger HonestAt(plan, statuses, p)} :: HonestAt(plan, statuses, p)
  }

  /** `p` is a min_success node with `t` in a branch and enough clean branches. */
  ghost predicate Excuses(plan: Plan, statuses: Statuses, p: int, t: int) {
    && p in plan.nodes && plan.nodes[p].kind.Parallel? && plan.nodes[p].kind.policy.MinSuccess?
    && t in Flatten(plan.nodes[p].kind.branches)
    && PolicyMet(statuses, plan.nodes[p].kind.branches, plan.nodes[p].kind.policy)
  }

  /** A failure the workflow may swallow. */
  ghost predicate Tolerable(plan: Plan, statuses: Statuses, t: int) {
    exists p :: Excuses(plan, statuses, p, t)
  }

  ghost predicate AllTolerable(plan: Plan, statuses: Statuses, tolerated: set<int>) {
    forall t :: t in tolerated ==> Tolerable(plan, statuses, t)
  }

  // ---- What each event needs before it.

  /** Neither cancelled nor late at the last look, which was just now. */
  predicate LastClear(history: History) {
    history != [] && history[|history| - 1] == Checked(None)
  }

  /** `t` belongs to the branch the condition did not choose. */
  predicate Rejects(plan: Plan, p: int, matched: bool, t: int) {
    p in plan.nodes && plan.nodes[p].kind.Condition? && t in if matched then plan.nodes[p].kind.elseTargets else plan.nodes[p].kind.thenTargets
  }

  /** `n` stands at place `k` of branch `b`, and everything before it in the branch ended well. */
  predicate InLine(statuses: Statuses, branches: seq<seq<int>>, b: nat, k: nat, n: int) {
    b < |branches| && k < |branches[b]| && branches[b][k] == n && Clean(statuses, branches[b][..k])
  }

  predicate ChildFailed(history: History, p: int) {
    exists i :: 0 <= i < |history| && history[i].ChildEnded? && history[i].node == p && history[i].status != Succeeded
  }

  /** Controller `p` may ask for `n` now: a parallel node for the next in a branch, a sub-workflow for its compensation once
      its child has ended without success. */
  ghost predicate MayAsk(plan: Plan, history: History, statuses: Statuses, p: int, n: int) {
    p in plan.nodes && match plan.nodes[p].kind
      case Parallel(branches, _) => exists b, k :: InLine(statuses, branches, b, k, n)
      case SubWorkflow(_, failure, compensation) => failure == Compensate && compensation == Some(n) && ChildFailed(history, p)
      case _ => false
  }

  /** Who asked for `n` was entitled to; compensation nodes are never run unasked. */
  ghost predicate Asked(plan: Plan, history: History, statuses: Statuses, controller: Option<int>, n: int) {
    if controller.Some? then MayAsk(plan, history, statuses, controller.value, n) else n !in CompensationNodes(plan)
  }

  /** The condition `p` has chosen, and not against `n`. */
  ghost predicate ChosenFor(plan: Plan, history: History, p: int, n: int) {
    exists i :: 0 <= i < |history| && history[i].Chose? && history[i].node == p && !Rejects(plan, p, history[i].matched, n)
  }

  /** No condition that has succeeded chose against `n`. */
  ghost predicate NotRejected(plan: Plan, history: History, statuses: Statuses, n: int) {
    forall p {:trigger ChosenFor(plan, history, p, n)} ::
      p in plan.nodes && plan.nodes[p].kind.Condition? && p in statuses && statuses[p] == Succeeded ==> ChosenFor(plan, history, p, n)
  }

  /** A first attempt: the direct dependencies had succeeded, were skipped, or are the running controller; whoever asked was
      entitled to; and no condition had decided against the node. */
  ghost predicate Gated(plan: Plan, before: History, n: int, controller: Option<int>, seen: Statuses) {
    && n in plan.nodes && n in seen && seen[n] == Pending
    && (forall d :: d in plan.nodes[n].dependsOn ==> Satisfied(seen, d, controller))
    && Asked(plan, before, seen, controller, n)
    && NotRejected(plan, before, seen, n)
  }

  /** Attempt `k` of `n` failed with a code the node may be retried on. */
  predicate Retryable(plan: Plan, e: Event, n: int, k: int) {
    && e.Ended? && e.node == n && e.attempt == k && e.outcome.Thrown? && e.outcome.signal.Raised?
    && n in plan.nodes && e.outcome.signal.code in plan.nodes[n].retryOn
  }

  predicate Retried(plan: Plan, history: History, n: int, k: int) {
    exists i :: 0 <= i < |history| && Retryable(plan, history[i], n, k)
  }

  /** A dispatch that came back is judged by a last look at cancellation and deadline; an exception is taken as it is. */
  predicate Judged(before: History, returned: Outcome, outcome: Outcome) {
    if !returned.Completed? then outcome == returned
    else
      && before != [] && before[|before| - 1].Checked?
      && match before[|before| - 1].found
         case Some(signal) => outcome == Thrown(signal)
         case None => outcome == if returned.ok then Completed(true) else Thrown(Raised("NODE_RETURNED_FAILURE"))
  }

  /** The last thing that happened was attempt `k` of `n` failing with this code. */
  predicate JustFailed(before: History, n: int, k: nat, code: string) {
    && before != [] && before[|before| - 1].Ended? && before[|before| - 1].node == n && before[|before| - 1].attempt == k
    && before[|before| - 1].outcome == Thrown(Raised(code))
  }

  ghost predicate EventOk(plan: Plan, before: History, e: Event) {
    match e
    case Began(n, controller, k, seen) =>
      && LastClear(before) && n in plan.nodes && 1 <= k <= plan.nodes[n].maxAttempts
      && if k == 1 then Gated(plan, before, n, controller, seen) else Retried(plan, before, n, k - 1)
    case Ended(n, k, returned, outcome) => Judged(before, returned, outcome)
    case GaveUp(n, k, code) =>
      n in plan.nodes && JustFailed(before, n, k, code) && (k == plan.nodes[n].maxAttempts || code !in plan.nodes[n].retryOn)
    case CutShort(n, signal) => before != [] && before[|before| - 1] == Checked(Some(signal))
    case FailedFast(p, seen) =>
      && p in plan.nodes && plan.nodes[p].kind.Parallel? && plan.nodes[p].kind.policy.FailFast?
      && exists b :: b in plan.nodes[p].kind.branches && Spoiled(seen, b)
    case Met(p, seen) =>
      && p in plan.nodes && plan.nodes[p].kind.Parallel? && plan.nodes[p].kind.policy.MinSuccess?
      && PolicyMet(seen, plan.nodes[p].kind.branches, plan.nodes[p].kind.policy)
    case _ => true
  }

  ghost predicate EventAt(plan: Plan, history: History, i: nat)
    requires i < |history|
  {
    EventOk(plan, history[..i], history[i])
  }

  /** Every event is warranted by those before it. */
  ghost predicate HistoryOk(plan: Plan, history: History) {
    forall i {:trigger EventAt(plan, history, i)} :: 0 <= i < |history| ==> EventAt(plan, history, i)
  }

  lemma HistoryGrows(plan: Plan, history: History, e: Event)
    requires HistoryOk(plan, history) && EventOk(plan, history, e)
    ensures HistoryOk(plan, history + [e])
  {
    var longer := history + [e];
    forall i | 0 <= i < |longer| ensures EventAt(plan, longer, i) {
      if i < |history| {
        assert EventAt(plan, history, i);
        assert longer[..i] == history[..i];
      } else {
        assert longer[..i] == history;
      }
    }
  }

  // ---- Starts.

  predicate IsStart(e: Event, n: int) {
    e.Began? && e.attempt == 1 && e.node == n
  }

  predicate HasStarted(history: History, n: int) {
    exists i :: 0 <= i < |history| && IsStart(history[i], n)
  }

  predicate Ran(s: Status) {
    s in {Running, Succeeded, Failed, TimedOut}
  }

  /** Good terminal statuses never change. */
  ghost predicate Steady(before: Statuses, after: Statuses) {
    forall m :: m in before && SettledWell(before[m]) ==> m in after && after[m] == before[m]
  }

  ghost predicate StartStands(statuses: Statuses, e: Event) {
    e.Began? && e.attempt == 1 ==> Steady(e.seen, statuses)
  }

  /** Every start saw good statuses that still stand, and whatever ran was started. */
  ghost predicate StartsGated(statuses: Statuses, history: History) {
    && (forall i {:trigger StartStands(statuses, history[i])} :: 0 <= i < |history| ==> StartStands(statuses, history[i]))
    && (forall n {:trigger HasStarted(history, n)} :: n in statuses && Ran(statuses[n]) ==> HasStarted(history, n))
  }

  /** `p` keeps `n` from running: a condition that chose the other branch, a fail_fast node one of whose branches failed, or
      a sub-workflow that `n` compensates. */
  ghost predicate ExcludedBy(plan: Plan, history: History, p: int, n: int) {
    p in plan.nodes && match plan.nodes[p].kind
      case Condition(_, _) => exists i :: 0 <= i < |history| && history[i].Chose? && history[i].node == p && Rejects(plan, p, history[i].matched, n)
      case Parallel(branches, _) => n in Flatten(branches) && exists i :: 0 <= i < |history| && history[i].FailedFast? && history[i].node == p
      case SubWorkflow(_, failure, compensation) => failure == Compensate && compensation == Some(n)
      case _ => false
  }

  ghost predicate Excluded(plan: Plan, history: History, n: int) {
    exists p :: ExcludedBy(plan, history, p, n)
  }

  /** A direct dependency that did not succeed and is not about to be retried. */
  ghost predicate BlockedBy(plan: Plan, statuses: Statuses, stack: set<int>, n: int, d: int) {
    n in plan.nodes && d in plan.nodes[n].dependsOn && d in statuses && Blocks(statuses[d]) && d !in stack
  }

  ghost predicate MaySkip(plan: Plan, history: History, statuses: Statuses, stack: set<int>, n: int) {
    Excluded(plan, history, n) || exists d :: BlockedBy(plan, statuses, stack, n, d)
  }

  /** Nothing is skipped without a reason. */
  ghost predicate SkipsJustified(plan: Plan, history: History, statuses: Statuses, stack: set<int>) {
    forall n {:trigger MaySkip(plan, history, statuses, stack, n)} ::
      n in statuses && statuses[n] == Skipped ==> MaySkip(plan, history, statuses, stack, n)
  }

  /** A node that is not the reason for any skip may change its status. */
  lemma JustifiedMove(plan: Plan, history: History, statuses: Statuses, stack: set<int>, n: int, to: Status)
    requires SkipsJustified(plan, history, statuses, stack) && n in statuses && (!Blocks(statuses[n]) || n in stack)
    requires to == Skipped ==> MaySkip(plan, history, statuses, stack, n)
    ensures SkipsJustified(plan, history, statuses[n := to], stack)
  {
    var after := statuses[n := to];
    forall m | m in after && after[m] == Skipped ensures MaySkip(plan, history, after, stack, m) {
      assert MaySkip(plan, history, statuses, stack, m);
      if !Excluded(plan, history, m) {
        var d :| BlockedBy(plan, statuses, stack, m, d);
        assert BlockedBy(plan, after, stack, m, d);
      }
    }
  }

  lemma JustifiedStack(plan: Plan, history: History, statuses: Statuses, stack: set<int>, other: set<int>)
    requires SkipsJustified(plan, history, statuses, stack)
    requires forall d :: d in other && d in statuses && Blocks(statuses[d]) ==> d in stack
    ensures SkipsJustified(plan, history, statuses, other)
  {
    forall m | m in statuses && statuses[m] == Skipped ensures MaySkip(plan, history, statuses, other, m) {
      assert MaySkip(plan, history, statuses, stack, m);
      if !Excluded(plan, history, m) {
        var d :| BlockedBy(plan, statuses, stack, m, d);
        assert BlockedBy(plan, statuses, other, m, d);
      }
    }
  }

  lemma ExcludedGrows(plan: Plan, history: History, longer: History, n: int)
    requires history <= longer && Excluded(plan, history, n)
    ensures Excluded(plan, longer, n)
  {
    var p :| ExcludedBy(plan, history, p, n);
    match plan.nodes[p].kind {
      case Condition(_, _) =>
        var i :| 0 <= i < |history| && history[i].Chose? && history[i].node == p && Rejects(plan, p, history[i].matched, n);
        assert longer[i] == history[i];
      case Parallel(_, _) =>
        var i :| 0 <= i < |history| && history[i].FailedFast? && history[i].node == p;
        assert longer[i] == history[i];
      case _ =>
    }
    assert ExcludedBy(plan, longer, p, n);
  }

  lemma JustifiedGrows(plan: Plan, history: History, longer: History, statuses: Statuses, stack: set<int>)
    requires history <= longer && SkipsJustified(plan, history, statuses, stack)
    ensures SkipsJustified(plan, longer, statuses, stack)
  {
    forall m | m in statuses && statuses[m] == Skipped ensures MaySkip(plan, longer, statuses, stack, m) {
      assert MaySkip(plan, history, statuses, stack, m);
      if Excluded(plan, history, m) {
        ExcludedGrows(plan, history, longer, m);
      }
    }
  }

  // ---- Why a node has the status it has.

  predicate EndedWith(history: History, n: int, outcome: Outcome) {
    exists i :: 0 <= i < |history| && history[i].Ended? && history[i].node == n && history[i].outcome == outcome
  }

  /** Given up for good, or cut short between two attempts. */
  predicate LeftFailed(history: History, n: int) {
    exists i :: 0 <= i < |history| && ((history[i].GaveUp? && history[i].node == n) || (history[i].CutShort? && history[i].node == n))
  }

  /** A condition decided, and has the branch it rejected out of the way. */
  ghost predicate Decided(plan: Plan, statuses: Statuses, e: Event, p: int) {
    e.Chose? && e.node == p && forall t :: Rejects(plan, p, e.matched, t) ==> t in statuses && statuses[t] != Pending
  }

  /** A min_success policy met, and the failures in its branches tolerated. */
  ghost predicate Excused(plan: Plan, tolerated: set<int>, e: Event, p: int) {
    && e.Met? && e.node == p && p in plan.nodes && plan.nodes[p].kind.Parallel?
    && forall t :: t in Flatten(plan.nodes[p].kind.branches) && t in e.seen && e.seen[t] in {Failed, TimedOut} ==> t in tolerated
  }

  /** The child succeeded, or its failure does not matter. */
  predicate ChildAccepted(plan: Plan, e: Event, p: int) {
    && e.ChildEnded? && e.node == p && p in plan.nodes && plan.nodes[p].kind.SubWorkflow?
    && (e.status == Succeeded || plan.nodes[p].kind.failure == Continue)
  }

  /** What a node of this kind has done when it succeeds. */
  ghost predicate Delivered(plan: Plan, history: History, statuses: Statuses, tolerated: set<int>, n: int) {
    n in plan.nodes && match plan.nodes[n].kind
      case Condition(_, _) => exists i :: 0 <= i < |history| && Decided(plan, statuses, history[i], n)
      case Parallel(_, policy) => policy.MinSuccess? ==> exists i :: 0 <= i < |history| && Excused(plan, tolerated, history[i], n)
      case SubWorkflow(_, _, _) => exists i :: 0 <= i < |history| && ChildAccepted(plan, history[i], n)
      case _ => Answered(n, Completed(true)) in history
  }

  /** The history accounts for the status `to` of `n`. */
  ghost predicate Explains(plan: Plan, history: History, statuses: Statuses, tolerated: set<int>, stack: set<int>, n: int, to: Status) {
    match to
    case Succeeded => EndedWith(history, n, Completed(true)) && Delivered(plan, history, statuses, tolerated, n)
    case Failed => n in stack || LeftFailed(history, n)
    case TimedOut => EndedWith(history, n, NodeTimedOut) || EndedWith(history, n, Thrown(WorkflowTimedOut))
    case _ => true
  }

  ghost predicate AllExplained(plan: Plan, history: History, statuses: Statuses, tolerated: set<int>, stack: set<int>) {
    forall n {:trigger Explains(plan, history, statuses, tolerated, stack, n, statuses[n])} ::
      n in statuses ==> Explains(plan, history, statuses, tolerated, stack, n, statuses[n])
  }

  /** More history, more tolerance and fewer pending nodes leave explanations standing. */
  lemma DeliveredStands(plan: Plan, history: History, longer: History, statuses: Statuses, after: Statuses, tolerated: set<int>, more: set<int>, n: int)
    requires Delivered(plan, history, statuses, tolerated, n) && history <= longer && tolerated <= more
    requires forall m :: m in statuses && statuses[m] != Pending ==> m in after && after[m] != Pending
    ensures Delivered(plan, longer, after, more, n)
  {
    match plan.nodes[n].kind {
      case Condition(_, _) =>
        var i :| 0 <= i < |history| && Decided(plan, statuses, history[i], n);
        assert Decided(plan, after, longer[i], n);
      case Parallel(_, policy) =>
        if policy.MinSuccess? {
          var i :| 0 <= i < |history| && Excused(plan, tolerated, history[i], n);
          assert Excused(plan, more, longer[i], n);
        }
      case SubWorkflow(_, _, _) =>
        var i :| 0 <= i < |history| && ChildAccepted(plan, history[i], n);
        assert ChildAccepted(plan, longer[i], n);
      case _ =>
        var i :| 0 <= i < |history| && history[i] == Answered(n, Completed(true));
        assert longer[i] == Answered(n, Completed(true));
    }
  }

  lemma EndedStands(history: History, longer: History, n: int, outcome: Outcome)
    requires history <= longer && EndedWith(history, n, outcome)
    ensures EndedWith(longer, n, outcome)
  {
    var i :| 0 <= i < |history| && history[i].Ended? && history[i].node == n && history[i].outcome == outcome;
    assert longer[i] == history[i];
  }

  lemma LeftFailedStands(history: History, longer: History, n: int)
    requires history <= longer && LeftFailed(history, n)
    ensures LeftFailed(longer, n)
  {
    var i :| 0 <= i < |history| && ((history[i].GaveUp? && history[i].node == n) || (history[i].CutShort? && history[i].node == n));
    assert longer[i] == history[i];
  }

  lemma ExplainsStands(plan: Plan, history: History, longer: History, statuses: Statuses, after: Statuses, tolerated: set<int>, more: set<int>,
                       stack: set<int>, other: set<int>, n: int, to: Status)
    requires Explains(plan, history, statuses, tolerated, stack, n, to) && history <= longer && tolerated <= more
    requires forall m :: m in statuses && statuses[m] != Pending ==> m in after && after[m] != Pending
    requires to == Failed && n in stack ==> n in other || LeftFailed(longer, n)
    ensures Explains(plan, longer, after, more, other, n, to)
  {
    match to {
      case Succeeded =>
        EndedStands(history, longer, n, Completed(true));
        DeliveredStands(plan, history, longer, statuses, after, tolerated, more, n);
      case Failed =>
        if LeftFailed(history, n) { LeftFailedStands(history, longer, n); }
      case TimedOut =>
        if EndedWith(history, n, NodeTimedOut) { EndedStands(history, longer, n, NodeTimedOut); }
        if EndedWith(history, n, Thrown(WorkflowTimedOut)) { EndedStands(history, longer, n, Thrown(WorkflowTimedOut)); }
      case _ =>
    }
  }

  lemma ExplainedMove(plan: Plan, history: History, statuses: Statuses, tolerated: set<int>, stack: set<int>, n: int, to: Status)
    requires AllExplained(plan, history, statuses, tolerated, stack) && n in statuses && to != Pending
    requires Explains(plan, history, statuses, tolerated, stack, n, to)
    ensures AllExplained(plan, history, statuses[n := to], tolerated, stack)
  {
    var after := statuses[n := to];
    forall m | m in after ensures Explains(plan, history, after, tolerated, stack, m, after[m]) {
      if m != n {
        assert Explains(plan, history, statuses, tolerated, stack, m, statuses[m]);
      }
      ExplainsStands(plan, history, history, statuses, after, tolerated, tolerated, stack, stack, m, after[m]);
    }
  }

  /** The same for more history, more tolerance, or another stack. */
  lemma ExplainedGrows(plan: Plan, history: History, longer: History, statuses: Statuses, tolerated: set<int>, more: set<int>, stack: set<int>, other: set<int>)
    requires AllExplained(plan, history, statuses, tolerated, stack) && history <= longer && tolerated <= more
    requires forall n :: n in stack && n in statuses && statuses[n] == Failed ==> n in other || LeftFailed(longer, n)
    ensures AllExplained(plan, longer, statuses, more, other)
  {
    forall m | m in statuses ensures Explains(plan, longer, statuses, more, other, m, statuses[m]) {
      assert Explains(plan, history, statuses, tolerated, stack, m, statuses[m]);
      ExplainsStands(plan, history, longer, statuses, statuses, tolerated, more, stack, other, m, statuses[m]);
    }
  }

  ghost predicate Invariant(plan: Plan, statuses: Statuses, rows: map<int, seq<Status>>, executed: set<int>,
                            tolerated: set<int>, history: History, stack: set<int>)
  {
    && SkipsJustified(plan, history, statuses, stack)
    && Consistent(plan, statuses, rows, executed)
    && Honest(plan, statuses)
    && AllTolerable(plan, statuses, tolerated)
    && StartsGated(statuses, history)
    && HistoryOk(plan, history)
    && AllExplained(plan, history, statuses, tolerated, stack)
  }

  /** The part of the bookkeeping that nested work changes. */
  datatype Book = Book(statuses: Statuses, rows: map<int, seq<Status>>)

  /** Effect of work at positions `from` and later: only pending nodes there may change, and none is left running. */
  ghost predicate Kept(plan: Plan, before: Book, after: Book, from: nat) {
    && before.statuses.Keys == after.statuses.Keys == before.rows.Keys == after.rows.Keys
    && (forall m :: m in before.statuses && (before.statuses[m] != Pending || Position(plan.order, m) < from)
          ==> after.statuses[m] == before.statuses[m] && after.rows[m] == before.rows[m])
    && (forall m :: m in before.statuses && after.statuses[m] == Running ==> before.statuses[m] == Running)
  }

  /** The same for an attempt of `n` itself, whose own row changes. */
  ghost predicate KeptBut(plan: Plan, before: Book, after: Book, n: int) {
    && before.statuses.Keys == after.statuses.Keys == before.rows.Keys == after.rows.Keys
    && (forall m :: m in before.statuses && m != n && (before.statuses[m] != Pending || Position(plan.order, m) <= Position(plan.order, n))
          ==> after.statuses[m] == before.statuses[m] && after.rows[m] == before.rows[m])
    && (forall m :: m in before.statuses && m != n && after.statuses[m] == Running ==> before.statuses[m] == Running)
  }

  lemma AttemptKept(plan: Plan, a: Book, b: Book, c: Book, d: Book, n: int)
    requires n in a.statuses && KeptBut(plan, a, b, n) && Kept(plan, b, c, Position(plan.order, n) + 1) && KeptBut(plan, c, d, n)
    ensures KeptBut(plan, a, d, n)
  {
    forall m | m in a.statuses && m != n && (a.statuses[m] != Pending || Position(plan.order, m) <= Position(plan.order, n))
      ensures d.statuses[m] == a.statuses[m] && d.rows[m] == a.rows[m]
    {
      assert b.statuses[m] == a.statuses[m];
      assert c.statuses[m] == b.statuses[m];
    }
  }

  lemma AttemptsKept(plan: Plan, before: Book, after: Book, n: int)
    requires KeptBut(plan, before, after, n) && n in before.statuses
    requires before.statuses[n] == Pending && after.statuses[n] != Running
    ensures Kept(plan, before, after, Position(plan.order, n))
  {
  }

  lemma StackKept(plan: Plan, before: Book, after: Book, n: int)
    requires KeptBut(plan, before, after, n) && n in after.statuses && after.statuses[n] != Running
    requires StackBelow(plan, before.statuses, Position(plan.order, n))
    ensures StackBelow(plan, after.statuses, Position(plan.order, n))
  {
  }

  lemma StackPushed(plan: Plan, before: Book, after: Book, n: int)
    requires KeptBut(plan, before, after, n) && StackBelow(plan, before.statuses, Position(plan.order, n))
    ensures StackBelow(plan, after.statuses, Position(plan.order, n) + 1)
  {
  }

  lemma KeptButTransitive(plan: Plan, a: Book, b: Book, c: Book, n: int)
    requires KeptBut(plan, a, b, n) && KeptBut(plan, b, c, n)
    ensures KeptBut(plan, a, c, n)
  {
    forall m | m in a.statuses && m != n && (a.statuses[m] != Pending || Position(plan.order, m) <= Position(plan.order, n))
      ensures c.statuses[m] == a.statuses[m] && c.rows[m] == a.rows[m]
    {
      assert b.statuses[m] == a.statuses[m];
    }
  }

  /** Only nodes before position `upTo` are on the call stack. */
  ghost predicate StackBelow(plan: Plan, statuses: Statuses, upTo: nat) {
    forall m :: m in statuses && statuses[m] == Running ==> Position(plan.order, m) < upTo
  }

  ghost predicate AllFinished(statuses: Statuses, targets: seq<int>) {
    forall t :: t in targets ==> t in statuses && Terminal(statuses[t])
  }

  ghost predicate FinishedStay(before: Statuses, after: Statuses) {
    forall m :: m in before && Terminal(before[m]) ==> m in after && after[m] == before[m]
  }

  lemma FinishedGrows(before: Statuses, after: Statuses, targets: seq<int>, i: nat)
    requires i < |targets| && AllFinished(before, targets[..i]) && FinishedStay(before, after)
    requires targets[i] in after && Terminal(after[targets[i]])
    ensures AllFinished(after, targets[..i + 1])
  {
    assert targets[..i + 1] == targets[..i] + [targets[i]];
  }

  /** A failure the result has to report. */
  predicate Unexcused(statuses: Statuses, tolerated: set<int>, n: int) {
    n in statuses && ErrorState(statuses[n]) && n !in tolerated
  }

  lemma {:induction false} CountSteady(before: Statuses, after: Statuses, branches: seq<seq<int>>)
    requires Steady(before, after)
    ensures CleanCount(before, branches) <= CleanCount(after, branches)
  {
    if branches != [] {
      CountSteady(before, after, branches[..|branches| - 1]);
      var b := branches[|branches| - 1];
      if Clean(before, b) {
        assert Clean(after, b);
      }
    }
  }

  lemma PolicySteady(before: Statuses, after: Statuses, branches: seq<seq<int>>, policy: ParallelPolicy)
    requires Steady(before, after) && PolicyMet(before, branches, policy)
    ensures PolicyMet(after, branches, policy)
  {
    CountSteady(before, after, branches);
  }

  lemma TolerableSteady(plan: Plan, before: Statuses, after: Statuses, tolerated: set<int>)
    requires Steady(before, after) && AllTolerable(plan, before, tolerated)
    ensures AllTolerable(plan, after, tolerated)
  {
    forall t | t in tolerated ensures Tolerable(plan, after, t) {
      assert Tolerable(plan, before, t);
      var p :| Excuses(plan, before, p, t);
      PolicySteady(before, after, plan.nodes[p].kind.branches, plan.nodes[p].kind.policy);
      assert Excuses(plan, after, p, t);
    }
  }

  /** One node changes its status; a parallel node may only become SUCCEEDED with its policy met. */
  ghost predicate HonestMove(plan: Plan, statuses: Statuses, n: int, to: Status) {
    && n in plan.nodes && n in statuses && !SettledWell(statuses[n])
    && (to == Succeeded && plan.nodes[n].kind.Parallel? ==>
          PolicyMet(statuses, plan.nodes[n].kind.branches, plan.nodes[n].kind.policy))
  }

  lemma MoveKeepsPromises(plan: Plan, statuses: Statuses, n: int, to: Status, tolerated: set<int>)
    requires Honest(plan, statuses) && AllTolerable(plan, statuses, tolerated) && HonestMove(plan, statuses, n, to)
    ensures Honest(plan, statuses[n := to]) && AllTolerable(plan, statuses[n := to], tolerated)
  {
    var after := statuses[n := to];
    assert Steady(statuses, after);
    TolerableSteady(plan, statuses, after, tolerated);
    forall p ensures HonestAt(plan, after, p) {
      assert HonestAt(plan, statuses, p);
      if p in plan.nodes && p in after && after[p] == Succeeded && plan.nodes[p].kind.Parallel? {
        PolicySteady(statuses, after, plan.nodes[p].kind.branches, plan.nodes[p].kind.policy);
      }
    }
  }

  lemma ConsistentUpdate(plan: Plan, statuses: Statuses, rows: map<int, seq<Status>>, executed: set<int>,
                         n: int, to: Status, attempts: seq<Status>, done: set<int>)
    requires Consistent(plan, statuses, rows, executed) && n in plan.nodes
    requires done == executed || done == executed + {n}
    requires NodeOk(plan.nodes[n], to, attempts, n in done)
    ensures Consistent(plan, statuses[n := to], rows[n := attempts], done)
  {
    forall m | m in plan.nodes ensures NodeOkAt(plan, statuses[n := to], rows[n := attempts], done, m) {
      assert NodeOkAt(plan, statuses, rows, executed, m);
    }
  }

  lemma StartsUpdate(statuses: Statuses, history: History, n: int, to: Status)
    requires StartsGated(statuses, history)
    requires n in statuses && !SettledWell(statuses[n]) && (Ran(to) ==> HasStarted(history, n))
    ensures StartsGated(statuses[n := to], history)
  {
    var next := statuses[n := to];
    forall i | 0 <= i < |history| ensures StartStands(next, history[i]) {
      assert StartStands(statuses, history[i]);
    }
    forall m | m in statuses[n := to] && Ran(statuses[n := to][m]) ensures HasStarted(history, m) {
      if m != n {
        assert m in statuses && Ran(statuses[m]);
      }
    }
  }

  lemma StartsAdd(statuses: Statuses, history: History, e: Event)
    requires StartsGated(statuses, history) && (e.Began? && e.attempt == 1 ==> e.seen == statuses)
    ensures StartsGated(statuses, history + [e])
  {
    var after := history + [e];
    forall i | 0 <= i < |after| ensures StartStands(statuses, after[i]) {
      if i < |history| {
        assert StartStands(statuses, history[i]);
      }
    }
    forall m | m in statuses && Ran(statuses[m]) ensures HasStarted(after, m) {
      assert HasStarted(history, m);
      StartKnown(history, after, m);
    }
  }

  lemma StartKnown(history: History, longer: History, n: int)
    requires history <= longer && HasStarted(history, n)
    ensures HasStarted(longer, n)
  {
    var i :| 0 <= i < |history| && IsStart(history[i], n);
    assert longer[i] == history[i];
  }

  /** A node changes its status, and with it its current attempt: the whole invariant survives. */
  lemma MoveKeepsInvariant(plan: Plan, statuses: Statuses, rows: map<int, seq<Status>>, executed: set<int>, tolerated: set<int>,
                           history: History, stack: set<int>, n: int, to: Status, attempts: seq<Status>, done: set<int>)
    requires Invariant(plan, statuses, rows, executed, tolerated, history, stack) && HonestMove(plan, statuses, n, to)
    requires done == executed || done == executed + {n}
    requires NodeOk(plan.nodes[n], to, attempts, n in done) && (Ran(to) ==> HasStarted(history, n)) && to != Pending
    requires (!Blocks(statuses[n]) || n in stack) && (to == Skipped ==> MaySkip(plan, history, statuses, stack, n))
    requires Explains(plan, history, statuses, tolerated, stack, n, to)
    ensures Invariant(plan, statuses[n := to], rows[n := attempts], done, tolerated, history, stack)
  {
    MoveKeepsPromises(plan, statuses, n, to, tolerated);
    ConsistentUpdate(plan, statuses, rows, executed, n, to, attempts, done);
    StartsUpdate(statuses, history, n, to);
    JustifiedMove(plan, history, statuses, stack, n, to);
    ExplainedMove(plan, history, statuses, tolerated, stack, n, to);
  }

  /** One more event. */
  lemma NoteKeepsInvariant(plan: Plan, statuses: Statuses, rows: map<int, seq<Status>>, executed: set<int>, tolerated: set<int>,
                           history: History, stack: set<int>, e: Event)
    requires Invariant(plan, statuses, rows, executed, tolerated, history, stack)
    requires EventOk(plan, history, e) && (e.Began? && e.attempt == 1 ==> e.seen == statuses)
    ensures Invariant(plan, statuses, rows, executed, tolerated, history + [e], stack)
  {
    HistoryGrows(plan, history, e);
    StartsAdd(statuses, history, e);
    JustifiedGrows(plan, history, history + [e], statuses, stack);
    ExplainedGrows(plan, history, history + [e], statuses, tolerated, tolerated, stack, stack);
  }

  /** A node that is not failed, or left so for good, may leave the stack. */
  lemma StackKeepsInvariant(plan: Plan, statuses: Statuses, rows: map<int, seq<Status>>, executed: set<int>, tolerated: set<int>,
                            history: History, stack: set<int>, other: set<int>)
    requires Invariant(plan, statuses, rows, executed, tolerated, history, stack)
    requires forall d :: d in other && d in statuses && Blocks(statuses[d]) ==> d in stack
    requires forall n :: n in stack && n in statuses && statuses[n] == Failed ==> n in other || LeftFailed(history, n)
    ensures Invariant(plan, statuses, rows, executed, tolerated, history, other)
  {
    JustifiedStack(plan, history, statuses, stack, other);
    ExplainedGrows(plan, history, history, statuses, tolerated, tolerated, stack, other);
  }

  /** Being asked for outlasts further events. */
  lemma AskedStands(plan: Plan, history: History, longer: History, statuses: Statuses, controller: Option<int>, n: int)
    requires history <= longer && Asked(plan, history, statuses, controller, n)
    ensures Asked(plan, longer, statuses, controller, n)
  {
    if controller.Some? && plan.nodes[controller.value].kind.SubWorkflow? {
      var p := controller.value;
      var i :| 0 <= i < |history| && history[i].ChildEnded? && history[i].node == p && history[i].status != Succeeded;
      assert longer[i] == history[i];
    }
  }

  lemma AskedTarget(plan: Plan, history: History, statuses: Statuses, p: int, n: int)
    requires MayAsk(plan, history, statuses, p, n)
    ensures p in plan.nodes && n in BranchTargets(plan.nodes[p])
  {
    match plan.nodes[p].kind {
      case Parallel(branches, _) =>
        var b, k :| InLine(statuses, branches, b, k, n);
        FlattenContains(branches, b, k);
      case _ =>
    }
  }

  /** A condition that has succeeded has its rejected branch out of the way, so nothing pending is in it. */
  lemma PendingNotRejected(plan: Plan, history: History, statuses: Statuses, tolerated: set<int>, stack: set<int>, n: int)
    requires AllExplained(plan, history, statuses, tolerated, stack) && n in statuses && statuses[n] == Pending
    ensures NotRejected(plan, history, statuses, n)
  {
    forall p | p in plan.nodes && plan.nodes[p].kind.Condition? && p in statuses && statuses[p] == Succeeded
      ensures ChosenFor(plan, history, p, n)
    {
      assert Explains(plan, history, statuses, tolerated, stack, p, statuses[p]);
      var i :| 0 <= i < |history| && Decided(plan, statuses, history[i], p);
      assert !Rejects(plan, p, history[i].matched, n);
    }
  }

  lemma KeptButMove(plan: Plan, before: Book, n: int, to: Status, attempts: seq<Status>)
    requires n in before.statuses && before.statuses.Keys == before.rows.Keys
    ensures KeptBut(plan, before, Book(before.statuses[n := to], before.rows[n := attempts]), n)
  {
  }

  /** Whatever else is under way. */
  ghost predicate OthersRunning(statuses: Statuses, stack: set<int>, n: int) {
    forall r :: r in stack && r != n ==> r in statuses && statuses[r] == Running
  }

  lemma OthersKept(plan: Plan, before: Book, after: Book, stack: set<int>, n: int)
    requires KeptBut(plan, before, after, n) && OthersRunning(before.statuses, stack, n)
    ensures OthersRunning(after.statuses, stack, n)
  {
  }

  /** What runs now ran before, and so still runs after other work on the same nodes. */
  lemma RunningStays(plan: Plan, before: Book, now: Book, after: Book, from: nat, stack: set<int>)
    requires Kept(plan, before, now, from) && Kept(plan, before, after, from)
    requires forall r :: r in stack ==> r in now.statuses && now.statuses[r] == Running
    ensures forall r :: r in stack ==> r in after.statuses && after.statuses[r] == Running
  {
  }

  lemma RunningKept(plan: Plan, before: Book, after: Book, n: int)
    requires Kept(plan, before, after, Position(plan.order, n) + 1) && n in before.statuses && before.statuses[n] == Running
    ensures n in after.statuses && after.statuses[n] == Running && after.rows[n] == before.rows[n]
  {
  }

  /** The first `i` nodes of the order are finished, compensation nodes aside. */
  ghost predicate ReadyFinished(plan: Plan, statuses: Statuses, i: nat)
    requires i <= |plan.order|
  {
    forall j :: 0 <= j < i && plan.order[j] !in CompensationNodes(plan) ==> plan.order[j] in statuses && Terminal(statuses[plan.order[j]])
  }

  lemma ReadyGrows(plan: Plan, before: Book, after: Book, i: nat)
    requires i < |plan.order| && ReadyFinished(plan, before.statuses, i) && Kept(plan, before, after, Position(plan.order, plan.order[i]))
    requires StackBelow(plan, before.statuses, 0)
    requires plan.order[i] !in CompensationNodes(plan) ==> plan.order[i] in after.statuses && Terminal(after.statuses[plan.order[i]])
    ensures ReadyFinished(plan, after.statuses, i + 1) && StackBelow(plan, after.statuses, 0)
  {
    forall j | 0 <= j < i && plan.order[j] !in CompensationNodes(plan)
      ensures plan.order[j] in after.statuses && Terminal(after.statuses[plan.order[j]])
    {
      var m := plan.order[j];
      assert m in before.statuses && before.statuses[m] != Pending;
      assert after.statuses[m] == before.statuses[m];
    }
  }

  lemma CleanGrows(plan: Plan, before: Book, after: Book, from: nat, branch: seq<int>, i: nat)
    requires i < |branch| && Clean(before.statuses, branch[..i]) && Kept(plan, before, after, from)
    requires branch[i] in after.statuses && SettledWell(after.statuses[branch[i]])
    ensures Clean(after.statuses, branch[..i + 1])
  {
    assert branch[..i + 1] == branch[..i] + [branch[i]];
  }

  function CountTrue(verdicts: seq<bool>): nat {
    if verdicts == [] then 0 else CountTrue(verdicts[..|verdicts| - 1]) + if verdicts[|verdicts| - 1] then 1 else 0
  }

  ghost predicate VerdictAt(statuses: Statuses, branch: seq<int>, verdict: bool) {
    if verdict then Clean(statuses, branch) else Spoiled(statuses, branch)
  }

  ghost predicate Verdicts(statuses: Statuses, branches: seq<seq<int>>, verdicts: seq<bool>) {
    |verdicts| <= |branches| && forall i :: 0 <= i < |verdicts| ==> VerdictAt(statuses, branches[i], verdicts[i])
  }

  /** The success count the runtime adds up is the number of clean branches. */
  lemma {:induction false} VerdictsCount(statuses: Statuses, branches: seq<seq<int>>, verdicts: seq<bool>)
    requires Verdicts(statuses, branches, verdicts) && |verdicts| == |branches|
    ensures CountTrue(verdicts) == CleanCount(statuses, branches)
    decreases |branches|
  {
    if branches != [] {
      var last := |branches| - 1;
      assert VerdictAt(statuses, branches[last], verdicts[last]);
      VerdictsCount(statuses, branches[..last], verdicts[..last]);
    }
  }

  lemma VerdictsGrow(statuses: Statuses, branches: seq<seq<int>>, verdicts: seq<bool>, verdict: bool)
    requires Verdicts(statuses, branches, verdicts) && |verdicts| < |branches|
    requires VerdictAt(statuses, branches[|verdicts|], verdict)
    ensures Verdicts(statuses, branches, verdicts + [verdict])
  {
  }

  lemma VerdictsKept(plan: Plan, before: Book, after: Book, from: nat, branches: seq<seq<int>>, verdicts: seq<bool>)
    requires Kept(plan, before, after, from) && Verdicts(before.statuses, branches, verdicts)
    ensures Verdicts(after.statuses, branches, verdicts)
  {
    forall i | 0 <= i < |verdicts| ensures VerdictAt(after.statuses, branches[i], verdicts[i]) {
      assert VerdictAt(before.statuses, branches[i], verdicts[i]);
      if !verdicts[i] {
        var t :| t in branches[i] && t in before.statuses && ErrorState(before.statuses[t]);
        assert after.statuses[t] == before.statuses[t];
      }
    }
  }

  lemma {:induction false} SpoiledMissesAll(statuses: Statuses, branches: seq<seq<int>>, i: nat)
    requires i < |branches| && Spoiled(statuses, branches[i])
    ensures CleanCount(statuses, branches) < |branches|
    decreases |branches|
  {
    var last := |branches| - 1;
    if i < last {
      SpoiledMissesAll(statuses, branches[..last], i);
    } else {
      var t :| t in branches[i] && t in statuses && ErrorState(statuses[t]);
    }
  }

  lemma KeptTransitive(plan: Plan, a: Book, b: Book, c: Book, from: nat, later: nat)
    requires Kept(plan, a, b, from) && Kept(plan, b, c, later) && from <= later
    ensures Kept(plan, a, c, from)
  {
    forall m | m in a.statuses && (a.statuses[m] != Pending || Position(plan.order, m) < from)
      ensures c.statuses[m] == a.statuses[m] && c.rows[m] == a.rows[m]
    {
      assert b.statuses[m] == a.statuses[m];
      assert Position(plan.order, m) < from ==> Position(plan.order, m) < later;
    }
  }

  /** Direct-dependency gating, read off the statuses alone: whoever ran had every dependency succeed or be skipped,
      unless that dependency is a controller that may run it. */
  lemma RanBehindItsDependencies(plan: Plan, statuses: Statuses, history: History, n: int, d: int)
    requires StartsGated(statuses, history) && HistoryOk(plan, history)
    requires n in plan.nodes && n in statuses && Ran(statuses[n]) && d in plan.nodes[n].dependsOn
    ensures
      || (d in statuses && statuses[d] in {Succeeded, Skipped})
      || (d in plan.nodes && n in BranchTargets(plan.nodes[d]))
  {
    var i := StartOf(plan, statuses, history, n);
    var s := history[i];
    assert StartStands(statuses, s);
    assert Satisfied(s.seen, d, s.controller);
    if s.controller.Some? {
      AskedTarget(plan, history[..i], s.seen, s.controller.value, n);
    }
    if s.seen[d] in {Succeeded, Skipped} {
      assert SettledWell(s.seen[d]);
    }
  }

  /** The first attempt of a node that ran, and what it was gated by. */
  lemma StartOf(plan: Plan, statuses: Statuses, history: History, n: int) returns (i: nat)
    requires StartsGated(statuses, history) && HistoryOk(plan, history) && n in statuses && Ran(statuses[n])
    ensures i < |history| && IsStart(history[i], n) && LastClear(history[..i])
    ensures Gated(plan, history[..i], n, history[i].controller, history[i].seen)
  {
    assert HasStarted(history, n);
    i :| 0 <= i < |history| && IsStart(history[i], n);
    assert EventAt(plan, history, i);
  }

  /** After a finished run, whatever was skipped had a direct dependency that did not succeed, or was kept from running by a
      condition's choice, a failed fail_fast branch, or as a compensation. */
  lemma SkippedForAReason(plan: Plan, history: History, statuses: Statuses, n: int)
    requires SkipsJustified(plan, history, statuses, {}) && n in statuses && statuses[n] == Skipped
    ensures (exists p :: ExcludedBy(plan, history, p, n)) || exists d :: BlockedBy(plan, statuses, {}, n, d)
  {
    assert MaySkip(plan, history, statuses, {}, n);
  }

  /** A sub-workflow node that succeeded had a child that did, or may go on without it. */
  lemma ChildDecides(plan: Plan, history: History, statuses: Statuses, tolerated: set<int>, stack: set<int>, n: int)
    requires AllExplained(plan, history, statuses, tolerated, stack) && n in statuses && statuses[n] == Succeeded
    requires n in plan.nodes && plan.nodes[n].kind.SubWorkflow?
    ensures exists s :: ChildEnded(n, s) in history && (s == Succeeded || plan.nodes[n].kind.failure == Continue)
  {
    assert Explains(plan, history, statuses, tolerated, stack, n, statuses[n]);
    var i :| 0 <= i < |history| && ChildAccepted(plan, history[i], n);
    assert history[i] == ChildEnded(n, history[i].status) && history[i] in history;
  }

  ghost predicate AskedFor(plan: Plan, history: History, p: int, n: int) {
    && p in plan.nodes && n in BranchTargets(plan.nodes[p])
    && (plan.nodes[p].kind.Parallel? || (plan.nodes[p].kind.SubWorkflow? && plan.nodes[p].kind.failure == Compensate && ChildFailed(history, p)))
  }

  /** A compensation node that ran was asked for: by a sub-workflow whose child had ended without success, or as part of a
      parallel branch. */
  lemma CompensationForFailure(plan: Plan, history: History, statuses: Statuses, n: int)
    requires StartsGated(statuses, history) && HistoryOk(plan, history)
    requires n in CompensationNodes(plan) && n in statuses && Ran(statuses[n])
    ensures exists p :: AskedFor(plan, history, p, n)
  {
    var i := StartOf(plan, statuses, history, n);
    var p := history[i].controller.value;
    AskedTarget(plan, history[..i], history[i].seen, p, n);
    if plan.nodes[p].kind.SubWorkflow? {
      var j :| 0 <= j < i && history[..i][j].ChildEnded? && history[..i][j].node == p && history[..i][j].status != Succeeded;
      assert history[j] == history[..i][j];
    }
    assert AskedFor(plan, history, p, n);
  }

  /** Under a parallel node a target starts only when everything before it in its branch has ended well. */
  lemma BranchesInOrder(plan: Plan, history: History, i: nat, p: int, n: int)
    requires HistoryOk(plan, history) && i < |history| && IsStart(history[i], n) && history[i].controller == Some(p)
    requires p in plan.nodes && plan.nodes[p].kind.Parallel?
    ensures exists b, k :: InLine(history[i].seen, plan.nodes[p].kind.branches, b, k, n)
  {
    assert EventAt(plan, history, i);
  }

  /** Once a condition has succeeded nothing in a branch starts any more unless the condition chose that branch. */
  lemma RejectedNeverStarts(plan: Plan, history: History, i: nat, p: int, n: int)
    requires HistoryOk(plan, history) && i < |history| && IsStart(history[i], n)
    requires p in plan.nodes && plan.nodes[p].kind.Condition? && p in history[i].seen && history[i].seen[p] == Succeeded
    ensures exists j :: 0 <= j < i && history[j].Chose? && history[j].node == p && !Rejects(plan, p, history[j].matched, n)
  {
    assert EventAt(plan, history, i);
    assert ChosenFor(plan, history[..i], p, n);
    var j :| 0 <= j < i && history[..i][j].Chose? && history[..i][j].node == p && !Rejects(plan, p, history[..i][j].matched, n);
    assert history[j] == history[..i][j];
  }

  /** A further attempt follows only on a failure with a code listed for retry, stays within the limit, and like every attempt
      comes right after a look that found neither cancellation nor a passed deadline. */
  lemma RetriesAreListed(plan: Plan, history: History, i: nat)
    requires HistoryOk(plan, history) && i < |history| && history[i].Began?
    ensures var n, k := history[i].node, history[i].attempt;
      && i > 0 && history[i - 1] == Checked(None)
      && n in plan.nodes && 1 <= k <= plan.nodes[n].maxAttempts
      && (k > 1 ==> exists j :: 0 <= j < i && Retryable(plan, history[j], n, k - 1))
  {
    assert EventAt(plan, history, i);
    var k := history[i].attempt;
    if k > 1 {
      var j :| 0 <= j < i && Retryable(plan, history[..i][j], history[i].node, k - 1);
      assert history[j] == history[..i][j];
    }
  }

  predicate LeftFor(plan: Plan, e: Event, n: int) {
    || (e.CutShort? && e.node == n)
    || (e.GaveUp? && e.node == n && n in plan.nodes && (e.attempt == plan.nodes[n].maxAttempts || e.code !in plan.nodes[n].retryOn))
  }

  /** A node left FAILED after a run either failed with a code not listed for retry or on its last attempt, or was cut short
      between two attempts by cancellation or the deadline. */
  lemma FailedForGood(plan: Plan, history: History, statuses: Statuses, tolerated: set<int>, n: int)
    requires AllExplained(plan, history, statuses, tolerated, {}) && HistoryOk(plan, history) && n in statuses && statuses[n] == Failed
    ensures exists i :: 0 <= i < |history| && LeftFor(plan, history[i], n)
  {
    assert Explains(plan, history, statuses, tolerated, {}, n, statuses[n]);
    var i :| 0 <= i < |history| && ((history[i].GaveUp? && history[i].node == n) || (history[i].CutShort? && history[i].node == n));
    assert EventAt(plan, history, i);
  }

  predicate SucceededAt(history: History, i: nat, n: int)
    requires 0 < i < |history|
  {
    history[i].Ended? && history[i].node == n && history[i].returned == Completed(true) && history[i - 1] == Checked(None)
  }

  /** A node that succeeded had an attempt dispatched successfully, with neither cancellation nor deadline noticed afterwards. */
  lemma SuccessWasReturned(plan: Plan, history: History, statuses: Statuses, tolerated: set<int>, stack: set<int>, n: int)
    requires AllExplained(plan, history, statuses, tolerated, stack) && HistoryOk(plan, history) && n in statuses && statuses[n] == Succeeded
    ensures exists i :: 0 < i < |history| && SucceededAt(history, i, n)
  {
    assert Explains(plan, history, statuses, tolerated, stack, n, statuses[n]);
    var i :| 0 <= i < |history| && history[i].Ended? && history[i].node == n && history[i].outcome == Completed(true);
    assert EventAt(plan, history, i);
    assert SucceededAt(history, i, n);
  }

  /** Somebody saw this signal: a look at cancellation and deadline, or an attempt it ended. */
  predicate SawSignal(history: History, signal: Signal) {
    exists i :: 0 <= i < |history| && (history[i] == Checked(Some(signal)) || (history[i].Ended? && history[i].outcome == Thrown(signal)))
  }

  /** A finished run leaves no attempt of any node open, and no node beyond its retry limit. */
  lemma EveryAttemptFinished(plan: Plan, statuses: Statuses, rows: map<int, seq<Status>>, executed: set<int>, n: int, attempt: nat)
    requires Consistent(plan, statuses, rows, executed) && Validated(plan) && AllFinished(statuses, plan.order)
    requires n in plan.nodes && attempt < |rows[n]|
    ensures Terminal(rows[n][attempt]) && attempt < plan.nodes[n].maxAttempts
  {
    assert n in plan.order;
    assert NodeOkAt(plan, statuses, rows, executed, n);
  }

  /** A dependent of a failed node is never run: at most it is skipped or cancelled. */
  lemma FailureStopsDependents(plan: Plan, statuses: Statuses, history: History, n: int, d: int)
    requires StartsGated(statuses, history) && HistoryOk(plan, history)
    requires n in plan.nodes && n in statuses && d in plan.nodes[n].dependsOn && d in plan.nodes
    requires d in statuses && Blocks(statuses[d]) && n !in BranchTargets(plan.nodes[d])
    ensures !Ran(statuses[n])
  {
    if Ran(statuses[n]) {
      RanBehindItsDependencies(plan, statuses, history, n, d);
    }
  }
}

module WorkflowRuntime {
  import opened Wrappers
  import opened Workflow
  import opened RunLog
  import opened WorkflowPlans
  import opened RuntimeState

  datatype Ending = Finished(status: Status) | Stopped(signal: Signal)

  datatype Gate = Open | Blocked | Unsettled

  /** An attempt ends the node, or fails with a code that may allow another one. */
  datatype AttemptEnd = Over(ending: Ending) | FailedWith(code: string)

  datatype BranchEnd = BranchDone(ok: bool) | BranchStopped(signal: Signal)

  class Execution {
    const plan: Plan
    const registry: map<WorkflowKey, Plan>
    const depth: nat
    const maxDepth: nat
    var run: Status
    var statuses: Statuses
    var rows: map<int, seq<Status>>
    var executed: set<int>
    var tolerated: set<int>
    /** Everything seen and decided so far. */
    ghost var history: History
    /** The nodes whose attempts are under way, on the call stack or between two attempts. */
    ghost var stack: set<int>

    ghost predicate Configured() {
      Runnable(plan) && depth <= maxDepth && forall k :: k in registry ==> Runnable(registry[k])
    }

    ghost predicate Valid()
      reads this
    {
      Configured() && Invariant(plan, statuses, rows, executed, tolerated, history, stack)
    }

    function Pos(n: int): nat { Position(plan.order, n) }

    ghost function Now(): Book
      reads this
    {
      Book(statuses, rows)
    }

    /** Node runs are created PENDING at attempt 1; nothing has run yet. */
    constructor (plan: Plan, registry: map<WorkflowKey, Plan>, depth: nat, maxDepth: nat)
      requires Runnable(plan) && depth <= maxDepth && forall k :: k in registry ==> Runnable(registry[k])
      ensures this.plan == plan && this.registry == registry && this.depth == depth && this.maxDepth == maxDepth
      ensures Valid() && run == Pending && tolerated == {} && stack == {} && history == []
      ensures forall n :: n in statuses ==> statuses[n] == Pending
    {
      this.plan, this.registry, this.depth, this.maxDepth := plan, registry, depth, maxDepth;
      run, executed, tolerated, history, stack := Pending, {}, {}, [], {};
      statuses := map n | n in plan.nodes :: Pending;
      rows := map n | n in plan.nodes :: [Pending];
      new;
      forall n | n in plan.nodes ensures NodeOkAt(plan, statuses, rows, executed, n) {
      }
    }

    /** `_transition_node`: the repository accepts it, because the step is in its table. */
    method Transition(n: int, to: Status)
      requires n in statuses && n in rows && rows[n] != [] && Allowed(NodeTable, rows[n][|rows[n]| - 1], to)
      modifies this`statuses, this`rows, this`executed
      ensures statuses == old(statuses)[n := to]
      ensures rows == old(rows)[n := old(rows)[n][..|old(rows)[n]| - 1] + [to]]
      ensures executed == if Terminal(to) then old(executed) + {n} else old(executed)
    {
      rows := rows[n := rows[n][..|rows[n]| - 1] + [to]];
      statuses := statuses[n := to];
      if Terminal(to) {
        executed := executed + {n};
      }
    }

    /** Take a node that has not run out of the way, or end the one that is running. */
    method Settle(n: int, to: Status)
      requires Valid() && n in plan.nodes && Terminal(to)
      requires Allowed(NodeTable, statuses[n], to) && (Ran(to) ==> statuses[n] == Running)
      requires HonestMove(plan, statuses, n, to) && (to == Skipped ==> MaySkip(plan, history, statuses, stack, n))
      requires Explains(plan, history, statuses, tolerated, stack, n, to)
      modifies this`statuses, this`rows, this`executed
      ensures Valid() && statuses == old(statuses)[n := to] && executed == old(executed) + {n}
      ensures |rows[n]| == |old(rows)[n]| && KeptBut(plan, old(Now()), Now(), n)
    {
      assert NodeOkAt(plan, statuses, rows, executed, n);
      ghost var attempts := rows[n][..|rows[n]| - 1] + [to];
      assert Ran(to) ==> HasStarted(history, n);
      MoveKeepsInvariant(plan, statuses, rows, executed, tolerated, history, stack, n, to, attempts, executed + {n});
      KeptButMove(plan, Now(), n, to, attempts);
      Transition(n, to);
    }

    method Skip(n: int)
      requires Valid() && n in plan.nodes && statuses[n] == Pending && MaySkip(plan, history, statuses, stack, n)
      modifies this`statuses, this`rows, this`executed
      ensures Valid() && statuses == old(statuses)[n := Skipped]
      ensures Kept(plan, old(Now()), Now(), Pos(n))
    {
      Settle(n, Skipped);
    }

    ghost method Note(e: Event)
      requires Valid() && EventOk(plan, history, e) && (e.Began? && e.attempt == 1 ==> e.seen == statuses)
      modifies this`history
      ensures Valid() && history == old(history) + [e]
    {
      NoteKeepsInvariant(plan, statuses, rows, executed, tolerated, history, stack, e);
      history := history + [e];
    }

    /** `_guard`: cancelled, past the deadline, or free to go on. */
    method Guard() returns (s: Option<Signal>, ghost cancelled: bool, ghost late: bool)
      requires Valid()
      modifies this`history
      ensures Valid() && history == old(history) + [Checked(s)]
      ensures s == if cancelled then Some(WorkflowCancelled) else if late then Some(WorkflowTimedOut) else None
      ensures s.Some? ==> SawSignal(history, s.value)
    {
      var requested: bool, passed: bool := *, *;
      cancelled, late := requested, passed;
      s := if requested then Some(WorkflowCancelled) else if passed then Some(WorkflowTimedOut) else None;
      Note(Checked(s));
      assert history[|history| - 1] == Checked(s);
    }

    ghost predicate AllSatisfied(n: int, controller: Option<int>)
      requires n in plan.nodes
      reads this
    {
      forall d :: d in plan.nodes[n].dependsOn ==> Satisfied(statuses, d, controller)
    }

    /** Some dependency of `n` has not finished. */
    ghost predicate Waiting(n: int)
      requires n in plan.nodes
      reads this
    {
      exists d :: d in plan.nodes[n].dependsOn && d in statuses && !Terminal(statuses[d])
    }

    /** The dependency loop of `_execute_node`: the first one not satisfied decides. */
    method CheckDependencies(n: int, controller: Option<int>) returns (g: Gate)
      requires Valid() && n in plan.nodes
      ensures g.Open? <==> AllSatisfied(n, controller)
      ensures g.Unsettled? ==> Waiting(n)
      ensures g.Blocked? ==> exists d :: d in plan.nodes[n].dependsOn && d in statuses && Blocks(statuses[d])
    {
      var dependencies := plan.nodes[n].dependsOn;
      for i := 0 to |dependencies|
        invariant forall j :: 0 <= j < i ==> Satisfied(statuses, dependencies[j], controller)
      {
        var d := dependencies[i];
        assert d in dependencies;
        assert NodeOkAt(plan, statuses, rows, executed, d);
        if controller == Some(d) && statuses[d] == Running {
          continue;
        }
        if Blocks(statuses[d]) {
          return Blocked;
        }
        if statuses[d] !in {Succeeded, Skipped} {
          return Unsettled;
        }
      }
      return Open;
    }

    /** PENDING to READY to RUNNING. */
    method Launch(n: int, ghost earlier: seq<Status>)
      requires n in statuses && n in rows && rows[n] == earlier + [Pending]
      modifies this`statuses, this`rows, this`executed
      ensures statuses == old(statuses)[n := Running] && executed == old(executed)
      ensures rows == old(rows)[n := earlier + [Running]]
    {
      Transition(n, Ready);
      assert rows[n] == earlier + [Ready];
      Transition(n, Running);
      assert rows[n] == earlier + [Running];
    }

    /** Whoever asks for `n` is entitled to. */
    ghost predicate AskedNow(n: int, controller: Option<int>)
      reads this
    {
      Asked(plan, history, statuses, controller, n)
    }

    /** What the next attempt of `n` needs: the first one the gate, a later one a failure it may be retried on. */
    ghost predicate MayBegin(n: int, controller: Option<int>, attempt: nat)
      requires n in plan.nodes
      reads this
    {
      && n in statuses && n in rows
      && if attempt == 1 then statuses[n] == Pending && AllSatisfied(n, controller) && AskedNow(n, controller)
         else statuses[n] == Failed && |rows[n]| == attempt - 1 && Retried(plan, history, n, attempt - 1)
    }

    /** Record the attempt that begins now. */
    ghost method NoteStart(n: int, controller: Option<int>, attempt: nat)
      requires Valid() && n in plan.nodes && 1 <= attempt <= plan.nodes[n].maxAttempts && MayBegin(n, controller, attempt) && LastClear(history)
      modifies this`history
      ensures Valid() && HasStarted(history, n) && old(history) <= history
    {
      if attempt == 1 {
        PendingNotRejected(plan, history, statuses, tolerated, stack, n);
        assert Gated(plan, history, n, controller, statuses);
      } else {
        assert HasStarted(history, n);
        StartKnown(history, history + [Began(n, controller, attempt, statuses)], n);
      }
      Note(Began(n, controller, attempt, statuses));
      assert attempt == 1 ==> IsStart(history[|history| - 1], n);
    }

    /** A further attempt gets a row of its own; the first one has it from the start. */
    method OpenRow(n: int, attempt: nat)
      requires n in rows && attempt >= 1 && (if attempt == 1 then rows[n] == [Pending] else |rows[n]| == attempt - 1)
      modifies this`rows
      ensures rows == old(rows)[n := old(rows)[n][..attempt - 1] + [Pending]]
    {
      if attempt > 1 {
        rows := rows[n := rows[n] + [Pending]];
        assert old(rows)[n][..attempt - 1] == old(rows)[n];
      } else {
        assert rows[n][..0] + [Pending] == rows[n];
      }
    }

    /** The change of state by which attempt `attempt` of `n` comes to run. */
    lemma BeginKeeps(n: int, attempt: nat)
      requires Valid() && n in plan.nodes && 1 <= attempt <= plan.nodes[n].maxAttempts && n in stack && HasStarted(history, n)
      requires if attempt == 1 then statuses[n] == Pending else statuses[n] == Failed && |rows[n]| == attempt - 1
      ensures rows[n] != [] && (attempt == 1 ==> rows[n] == [Pending])
      ensures attempt - 1 <= |rows[n]|
      ensures var attempts := rows[n][..attempt - 1] + [Running];
        && Invariant(plan, statuses[n := Running], rows[n := attempts], executed, tolerated, history, stack)
        && KeptBut(plan, Now(), Book(statuses[n := Running], rows[n := attempts]), n)
    {
      assert NodeOkAt(plan, statuses, rows, executed, n);
      var attempts := rows[n][..attempt - 1] + [Running];
      MoveKeepsInvariant(plan, statuses, rows, executed, tolerated, history, stack, n, Running, attempts, executed);
      KeptButMove(plan, Now(), n, Running, attempts);
    }

    /** Open attempt `attempt` of `n` and start it. */
    method Begin(n: int, controller: Option<int>, attempt: nat)
      requires Valid() && n in plan.nodes && 1 <= attempt <= plan.nodes[n].maxAttempts
      requires MayBegin(n, controller, attempt) && LastClear(history) && n in stack
      modifies this`statuses, this`rows, this`executed, this`history
      ensures Valid() && statuses == old(statuses)[n := Running] && |rows[n]| == attempt && old(history) <= history
      ensures KeptBut(plan, old(Now()), Now(), n)
    {
      NoteStart(n, controller, attempt);
      BeginKeeps(n, attempt);
      ghost var before, earlier := rows, rows[n][..attempt - 1];
      OpenRow(n, attempt);
      Launch(n, earlier);
      assert rows == before[n := earlier + [Running]];
    }

    /** Whatever is under way is running right now. */
    ghost predicate StackRunning()
      reads this
    {
      forall r :: r in stack ==> r in statuses && statuses[r] == Running
    }

    /** `n` is running on top of the call stack. */
    ghost predicate OnTop(n: int)
      reads this
    {
      Valid() && StackRunning() && depth < maxDepth && n in plan.nodes && statuses[n] == Running && StackBelow(plan, statuses, Pos(n) + 1)
    }

    /** A node the running controller may still touch is pending or finished. */
    lemma TargetIdle(n: int, t: int, before: Book)
      requires Valid() && n in plan.nodes && t in BranchTargets(plan.nodes[n])
      requires Kept(plan, before, Now(), Pos(n) + 1) && StackBelow(plan, before.statuses, Pos(n) + 1)
      ensures t in plan.nodes && Pos(n) < Pos(t) && StackBelow(plan, statuses, Pos(t))
      ensures statuses[t] == Pending || (Terminal(statuses[t]) && t in executed)
      ensures t in executed <==> Terminal(statuses[t])
    {
      assert NodeOkAt(plan, statuses, rows, executed, t);
    }

    /** Skip `t` on behalf of the running controller `n` unless it has already been executed. */
    method SkipUnlessExecuted(n: int, t: int, ghost before: Book)
      requires Valid() && n in plan.nodes && t in BranchTargets(plan.nodes[n]) && ExcludedBy(plan, history, n, t)
      requires Kept(plan, before, Now(), Pos(n) + 1) && StackBelow(plan, before.statuses, Pos(n) + 1)
      modifies this`statuses, this`rows, this`executed
      ensures Valid() && Kept(plan, before, Now(), Pos(n) + 1)
      ensures t in statuses && Terminal(statuses[t]) && OnlySkipped(old(statuses), statuses, [t])
    {
      TargetIdle(n, t, before);
      if t !in executed {
        ghost var earlier := Now();
        assert Excluded(plan, history, t);
        Skip(t);
        KeptTransitive(plan, before, earlier, Now(), Pos(n) + 1, Pos(t));
      }
    }

    /** Pending targets may have been skipped; nothing else has changed. */
    ghost predicate OnlySkipped(was: Statuses, now: Statuses, targets: seq<int>) {
      was.Keys == now.Keys && forall m :: m in was && now[m] != was[m] ==> m in targets && was[m] == Pending && now[m] == Skipped
    }

    lemma SkippedMore(was: Statuses, earlier: Statuses, now: Statuses, targets: seq<int>, i: nat)
      requires i < |targets| && OnlySkipped(was, earlier, targets) && OnlySkipped(earlier, now, [targets[i]])
      requires AllFinished(earlier, targets[..i]) && targets[i] in now && Terminal(now[targets[i]])
      ensures OnlySkipped(was, now, targets) && AllFinished(now, targets[..i + 1])
    {
      FinishedGrows(earlier, now, targets, i);
      assert targets[i] in targets;
    }

    method SkipTargets(n: int, targets: seq<int>, ghost before: Book)
      requires Valid() && n in plan.nodes && forall t :: t in targets ==> t in BranchTargets(plan.nodes[n]) && ExcludedBy(plan, history, n, t)
      requires Kept(plan, before, Now(), Pos(n) + 1) && StackBelow(plan, before.statuses, Pos(n) + 1)
      modifies this`statuses, this`rows, this`executed
      ensures Valid() && Kept(plan, before, Now(), Pos(n) + 1)
      ensures AllFinished(statuses, targets) && OnlySkipped(old(statuses), statuses, targets)
    {
      for i := 0 to |targets|
        invariant Valid() && Kept(plan, before, Now(), Pos(n) + 1)
        invariant AllFinished(statuses, targets[..i]) && OnlySkipped(old(statuses), statuses, targets)
      {
        ghost var earlier := statuses;
        assert targets[i] in targets;
        SkipUnlessExecuted(n, targets[i], before);
        SkippedMore(old(statuses), earlier, statuses, targets, i);
      }
      assert targets[..|targets|] == targets;
    }

    /** `_run_condition`: everything in the branch not taken is out of the way, and nothing else has changed. */
    method RunCondition(n: int) returns (o: Outcome, ghost matched: bool)
      requires OnTop(n) && plan.nodes[n].kind.Condition?
      modifies this`statuses, this`rows, this`executed, this`history
      ensures stack == old(stack) && old(history) <= history
      ensures Valid() && Kept(plan, old(Now()), Now(), Pos(n) + 1)
      ensures o == Completed(true) || (o.Thrown? && o.signal.Raised? && Now() == old(Now()))
      ensures o.Completed? ==> var kind := plan.nodes[n].kind; var rejected := if matched then kind.elseTargets else kind.thenTargets;
        AllFinished(statuses, rejected) && OnlySkipped(old(statuses), statuses, rejected)
      ensures o.Completed? ==> Delivered(plan, history, statuses, tolerated, n)
    {
      var raised: bool := *;
      if raised {
        return Thrown(Raised("ExpressionError")), false;
      }
      var taken: bool := *;
      matched := taken;
      Note(Chose(n, taken));
      ghost var at := |history| - 1;
      assert history[at] == Chose(n, taken);
      var kind := plan.nodes[n].kind;
      var rejected := if taken then kind.elseTargets else kind.thenTargets;
      forall t | t in rejected ensures t in BranchTargets(plan.nodes[n]) && ExcludedBy(plan, history, n, t) {
        assert Rejects(plan, n, history[at].matched, t);
      }
      SkipTargets(n, rejected, Now());
      assert Decided(plan, statuses, history[at], n);
      o := Completed(true);
    }

    /** One branch of a parallel node: its targets in turn, stopping at the first failure. */
    method RunBranch(n: int, b: nat, ghost before: Book) returns (end: BranchEnd)
      requires Valid() && StackRunning() && depth < maxDepth && n in plan.nodes && statuses[n] == Running
      requires plan.nodes[n].kind.Parallel? && b < |plan.nodes[n].kind.branches|
      requires Kept(plan, before, Now(), Pos(n) + 1) && StackBelow(plan, before.statuses, Pos(n) + 1)
      modifies this`statuses, this`rows, this`executed, this`tolerated, this`history, this`stack
      ensures stack == old(stack) && old(history) <= history
      ensures Valid() && Kept(plan, before, Now(), Pos(n) + 1) && Kept(plan, old(Now()), Now(), Pos(n) + 1)
      ensures end.BranchDone? ==> VerdictAt(statuses, plan.nodes[n].kind.branches[b], end.ok)
      decreases maxDepth - depth, |plan.order| - Pos(n), 0
    {
      var branch := plan.nodes[n].kind.branches[b];
      for i := 0 to |branch|
        invariant Valid() && Kept(plan, before, Now(), Pos(n) + 1) && Kept(plan, old(Now()), Now(), Pos(n) + 1)
        invariant stack == old(stack) && old(history) <= history && StackRunning()
        invariant Clean(statuses, branch[..i])
      {
        var t := branch[i];
        FlattenContains(plan.nodes[n].kind.branches, b, i);
        TargetIdle(n, t, before);
        ghost var earlier := Now();
        assert InLine(statuses, plan.nodes[n].kind.branches, b, i, t);
        var e := ExecuteNode(t, Some(n));
        KeptTransitive(plan, before, earlier, Now(), Pos(n) + 1, Pos(t));
        KeptTransitive(plan, old(Now()), earlier, Now(), Pos(n) + 1, Pos(t));
        if e.Stopped? {
          return BranchStopped(e.signal);
        }
        if ErrorState(e.status) {
          return BranchDone(false);
        }
        CleanGrows(plan, earlier, Now(), Pos(t), branch, i);
      }
      assert branch[..|branch|] == branch;
      return BranchDone(true);
    }

    /** One of the branches of a fail_fast node has failed. */
    ghost predicate FailFastSeen(n: int)
      reads this
    {
      && n in plan.nodes && plan.nodes[n].kind.Parallel?
      && exists i :: 0 <= i < |history| && history[i].FailedFast? && history[i].node == n
    }

    /** fail_fast: a branch still pending is cancelled wherever it is, and its result dropped. */
    method CancelBranch(n: int, b: nat, ghost before: Book)
      requires Valid() && StackRunning() && depth < maxDepth && FailFastSeen(n) && statuses[n] == Running
      requires b < |plan.nodes[n].kind.branches|
      requires Kept(plan, before, Now(), Pos(n) + 1) && StackBelow(plan, before.statuses, Pos(n) + 1)
      requires before.statuses[n] == Running
      modifies this`statuses, this`rows, this`executed, this`tolerated, this`history, this`stack
      ensures stack == old(stack) && old(history) <= history
      ensures n in statuses && statuses[n] == Running
      ensures Valid() && StackRunning() && Kept(plan, before, Now(), Pos(n) + 1)
      decreases maxDepth - depth, |plan.order| - Pos(n), 1, 0
    {
      ghost var earlier := Now();
      ghost var i :| 0 <= i < |history| && history[i].FailedFast? && history[i].node == n;
      ghost var e := history[i];
      var underway: bool := *;
      if underway {
        var dropped := RunBranch(n, b, before);
      }
      assert history[i] == e;
      var branch := plan.nodes[n].kind.branches[b];
      BranchTargetsOf(n);
      SkipTargets(n, branch, before);
      RunningStays(plan, before, earlier, Now(), Pos(n) + 1, stack + {n});
    }

    lemma FailFastStays(n: int, was: History)
      requires was <= history && n in plan.nodes && plan.nodes[n].kind.Parallel?
      requires exists i :: 0 <= i < |was| && was[i].FailedFast? && was[i].node == n
      ensures FailFastSeen(n)
    {
      var i :| 0 <= i < |was| && was[i].FailedFast? && was[i].node == n;
      assert history[i] == was[i];
    }

    /** All branches from number `from` on. */
    method CancelBranches(n: int, from: nat, ghost before: Book)
      requires Valid() && StackRunning() && depth < maxDepth && FailFastSeen(n) && statuses[n] == Running
      requires from <= |plan.nodes[n].kind.branches|
      requires Kept(plan, before, Now(), Pos(n) + 1) && StackBelow(plan, before.statuses, Pos(n) + 1)
      requires before.statuses[n] == Running
      modifies this`statuses, this`rows, this`executed, this`tolerated, this`history, this`stack
      ensures stack == old(stack) && old(history) <= history
      ensures Valid() && Kept(plan, before, Now(), Pos(n) + 1)
      decreases maxDepth - depth, |plan.order| - Pos(n), 1, 1
    {
      for b := from to |plan.nodes[n].kind.branches|
        invariant Valid() && Kept(plan, before, Now(), Pos(n) + 1) && FailFastSeen(n)
        invariant stack == old(stack) && old(history) <= history && StackRunning() && n in statuses && statuses[n] == Running
      {
        ghost var was := history;
        CancelBranch(n, b, before);
        FailFastStays(n, was);
      }
    }

    /** The branches one after another, up to the first failure under fail_fast. */
    method RunBranches(n: int) returns (verdicts: seq<bool>, stop: Option<Signal>)
      requires OnTop(n) && plan.nodes[n].kind.Parallel?
      modifies this`statuses, this`rows, this`executed, this`tolerated, this`history, this`stack
      ensures stack == old(stack) && old(history) <= history
      ensures Valid() && Kept(plan, old(Now()), Now(), Pos(n) + 1)
      ensures Verdicts(statuses, plan.nodes[n].kind.branches, verdicts)
      ensures stop.None? && |verdicts| < |plan.nodes[n].kind.branches| ==>
        plan.nodes[n].kind.policy.FailFast? && verdicts != [] && !verdicts[|verdicts| - 1]
      decreases maxDepth - depth, |plan.order| - Pos(n), 1
    {
      var branches := plan.nodes[n].kind.branches;
      verdicts := [];
      for i := 0 to |branches|
        invariant Valid() && Kept(plan, old(Now()), Now(), Pos(n) + 1)
        invariant stack == old(stack) && old(history) <= history && StackRunning()
        invariant |verdicts| == i && Verdicts(statuses, branches, verdicts)
      {
        ghost var earlier := Now();
        var end := RunBranch(n, i, old(Now()));
        VerdictsKept(plan, earlier, Now(), Pos(n) + 1, branches, verdicts);
        if end.BranchStopped? {
          return verdicts, Some(end.signal);
        }
        VerdictsGrow(statuses, branches, verdicts, end.ok);
        verdicts := verdicts + [end.ok];
        if !end.ok && plan.nodes[n].kind.policy.FailFast? {
          return verdicts, None;
        }
      }
      return verdicts, None;
    }

    /** `_run_parallel`: succeeds exactly when the branches meet the node's policy. */
    method RunParallel(n: int) returns (o: Outcome)
      requires OnTop(n) && plan.nodes[n].kind.Parallel?
      modifies this`statuses, this`rows, this`executed, this`tolerated, this`history, this`stack
      ensures stack == old(stack) && old(history) <= history
      ensures Valid() && Kept(plan, old(Now()), Now(), Pos(n) + 1)
      ensures !o.NodeTimedOut?
      ensures o.Completed? ==> (o.ok <==> PolicyMet(statuses, plan.nodes[n].kind.branches, plan.nodes[n].kind.policy))
      ensures o == Completed(true) ==> Delivered(plan, history, statuses, tolerated, n)
      decreases maxDepth - depth, |plan.order| - Pos(n), 2
    {
      var branches, policy := plan.nodes[n].kind.branches, plan.nodes[n].kind.policy;
      var verdicts, stop := RunBranches(n);
      if stop.Some? {
        return Thrown(stop.value);
      }
      if |verdicts| < |branches| {
        FailFastCancel(n, verdicts, old(Now()));
        return Completed(false);
      }
      VerdictsCount(statuses, branches, verdicts);
      var count := CountTrue(verdicts);
      if policy.MinSuccess? {
        if count >= policy.minimum {
          Tolerate(n);
        }
        return Completed(count >= policy.minimum);
      }
      return Completed(count == |branches|);
    }

    ghost method NoteFailedFast(n: int, last: nat, verdicts: seq<bool>)
      requires Valid() && n in plan.nodes && plan.nodes[n].kind.Parallel? && plan.nodes[n].kind.policy.FailFast?
      requires Verdicts(statuses, plan.nodes[n].kind.branches, verdicts) && last < |verdicts| && !verdicts[last]
      modifies this`history
      ensures Valid() && old(history) <= history && FailFastSeen(n)
    {
      assert VerdictAt(statuses, plan.nodes[n].kind.branches[last], verdicts[last]);
      assert plan.nodes[n].kind.branches[last] in plan.nodes[n].kind.branches;
      Note(FailedFast(n, statuses));
      assert history[|history| - 1].FailedFast?;
    }

    /** After a fail_fast failure not all branches can end clean any more. */
    method FailFastCancel(n: int, verdicts: seq<bool>, ghost before: Book)
      requires Valid() && StackRunning() && depth < maxDepth && n in plan.nodes && plan.nodes[n].kind.Parallel? && plan.nodes[n].kind.policy.FailFast?
      requires verdicts != [] && !verdicts[|verdicts| - 1]
      requires Verdicts(statuses, plan.nodes[n].kind.branches, verdicts) && n in before.statuses && before.statuses[n] == Running
      requires Kept(plan, before, Now(), Pos(n) + 1) && StackBelow(plan, before.statuses, Pos(n) + 1)
      modifies this`statuses, this`rows, this`executed, this`tolerated, this`history, this`stack
      ensures stack == old(stack) && old(history) <= history
      ensures Valid() && Kept(plan, before, Now(), Pos(n) + 1)
      ensures CleanCount(statuses, plan.nodes[n].kind.branches) < |plan.nodes[n].kind.branches|
      decreases maxDepth - depth, |plan.order| - Pos(n), 1, 2
    {
      ghost var failed := Now();
      ghost var branches := plan.nodes[n].kind.branches;
      var last := |verdicts| - 1;
      NoteFailedFast(n, last, verdicts);
      CancelBranches(n, last + 1, failed);
      KeptTransitive(plan, before, failed, Now(), Pos(n) + 1, Pos(n) + 1);
      VerdictsKept(plan, failed, Now(), Pos(n) + 1, branches, verdicts);
      assert VerdictAt(statuses, branches[last], verdicts[last]);
      SpoiledMissesAll(statuses, branches, last);
    }

    lemma BranchTargetsOf(n: int)
      requires n in plan.nodes && plan.nodes[n].kind.Parallel?
      ensures forall b, t :: b in plan.nodes[n].kind.branches && t in b ==> t in BranchTargets(plan.nodes[n])
    {
      var branches := plan.nodes[n].kind.branches;
      forall b, t | b in branches && t in b ensures t in BranchTargets(plan.nodes[n]) {
        var i :| 0 <= i < |branches| && branches[i] == b;
        var k :| 0 <= k < |b| && b[k] == t;
        FlattenContains(branches, i, k);
      }
    }

    /** A met min_success policy excuses the failures in its branches. */
    method Tolerate(n: int)
      requires Valid() && n in plan.nodes && plan.nodes[n].kind.Parallel? && plan.nodes[n].kind.policy.MinSuccess?
      requires PolicyMet(statuses, plan.nodes[n].kind.branches, plan.nodes[n].kind.policy)
      modifies this`tolerated, this`history
      ensures Valid() && old(history) <= history && Delivered(plan, history, statuses, tolerated, n)
      ensures tolerated == old(tolerated) +
        set t | t in Flatten(plan.nodes[n].kind.branches) && t in statuses && (statuses[t] == Failed || statuses[t] == TimedOut)
    {
      var failed := set t | t in Flatten(plan.nodes[n].kind.branches) && t in statuses && statuses[t] in {Failed, TimedOut};
      forall t | t in tolerated + failed ensures Tolerable(plan, statuses, t) {
        if t in failed {
          assert Excuses(plan, statuses, n, t);
        }
      }
      ExplainedGrows(plan, history, history, statuses, tolerated, tolerated + failed, stack, stack);
      tolerated := tolerated + failed;
      Note(Met(n, statuses));
      assert Excused(plan, tolerated, history[|history| - 1], n);
    }

    /** `child` is a finished run of the workflow that `n` names, one level deeper. */
    ghost predicate RanChild(n: int, child: Execution?)
      reads child
    {
      && n in plan.nodes && plan.nodes[n].kind.SubWorkflow? && plan.nodes[n].kind.child in registry
      && child != null && child.plan == registry[plan.nodes[n].kind.child] && child.depth == depth + 1
      && AllFinished(child.statuses, child.plan.order)
    }

    /** The child run, and how it ended, or the exception on the way there. */
    method RunChild(n: int) returns (status: Option<Status>, failure: Signal, ghost child: Execution?)
      requires Valid() && depth < maxDepth && n in plan.nodes && plan.nodes[n].kind.SubWorkflow?
      modifies this`history
      ensures Valid() && old(history) <= history
      ensures status.Some? ==> history == old(history) + [ChildEnded(n, status.value)] && RanChild(n, child) && child.run == status.value
      ensures status.Some? ==> fresh(child)
      decreases maxDepth - depth, |plan.order| - Pos(n), 1
    {
      status, failure, child := None, Raised("WorkflowNotFound"), null;
      var kind := plan.nodes[n].kind;
      if kind.child in registry {
        failure := Raised("WorkflowExecutionError");
        var raised: bool := *;
        if !raised {
          var nested := new Execution(registry[kind.child], registry, depth + 1, maxDepth);
          var result := nested.Execute();
          child := nested;
          if result.Stopped? {
            failure := result.signal;
          } else {
            status := Some(result.status);
            Note(ChildEnded(n, result.status));
          }
        }
      }
    }

    /** `_run_sub_workflow`: the child's end decides, unless its failure is to be ignored; only after a failure that is to be
        compensated does the compensation node run, and then it must succeed. */
    method RunSubWorkflow(n: int) returns (o: Outcome, ghost ended: Option<Status>, ghost child: Execution?)
      requires OnTop(n) && plan.nodes[n].kind.SubWorkflow?
      modifies this`statuses, this`rows, this`executed, this`tolerated, this`history, this`stack
      ensures stack == old(stack) && old(history) <= history
      ensures Valid() && Kept(plan, old(Now()), Now(), Pos(n) + 1)
      ensures !o.NodeTimedOut?
      ensures o.Completed? ==> ended.Some? && (o.ok <==> ended.value == Succeeded || plan.nodes[n].kind.failure == Continue)
      ensures ended.Some? ==> ChildEnded(n, ended.value) in history && RanChild(n, child) && child.run == ended.value
      ensures ended.None? || ended.value == Succeeded || plan.nodes[n].kind.failure != Compensate ==> Now() == old(Now())
      ensures o == Completed(false) && plan.nodes[n].kind.failure == Compensate ==>
        plan.nodes[n].kind.compensation.value in statuses && statuses[plan.nodes[n].kind.compensation.value] == Succeeded
      ensures o == Completed(true) ==> Delivered(plan, history, statuses, tolerated, n)
      decreases maxDepth - depth, |plan.order| - Pos(n), 2
    {
      var kind := plan.nodes[n].kind;
      var status, failure;
      status, failure, child := RunChild(n);
      ended := status;
      if status.None? {
        o := Thrown(failure);
        return;
      }
      ghost var at := |history| - 1;
      assert history[at] == ChildEnded(n, status.value);
      var ok := status.value == Succeeded || kind.failure == Continue;
      if !ok && kind.failure == Compensate {
        o := RunCompensation(n, at, status.value);
        return;
      }
      if ok {
        assert ChildAccepted(plan, history[at], n);
      }
      o := Completed(ok);
    }

    /** The child's failure is known: run the compensation node, which has to succeed. */
    method RunCompensation(n: int, ghost at: nat, ghost status: Status) returns (o: Outcome)
      requires OnTop(n) && plan.nodes[n].kind.SubWorkflow? && plan.nodes[n].kind.failure == Compensate
      requires at < |history| && history[at] == ChildEnded(n, status) && status != Succeeded
      modifies this`statuses, this`rows, this`executed, this`tolerated, this`history, this`stack
      ensures stack == old(stack) && old(history) <= history
      ensures Valid() && Kept(plan, old(Now()), Now(), Pos(n) + 1)
      ensures ChildEnded(n, status) in history
      ensures o == Completed(false) || o.Thrown?
      ensures o == Completed(false) ==>
        plan.nodes[n].kind.compensation.value in statuses && statuses[plan.nodes[n].kind.compensation.value] == Succeeded
      decreases maxDepth - depth, |plan.order| - Pos(n), 1
    {
      var compensation := plan.nodes[n].kind.compensation.value;
      assert compensation in BranchTargets(plan.nodes[n]);
      TargetIdle(n, compensation, Now());
      ghost var earlier := Now();
      assert ChildFailed(history, n);
      var e := ExecuteNode(compensation, Some(n));
      assert history[at] == ChildEnded(n, status);
      KeptTransitive(plan, earlier, earlier, Now(), Pos(n) + 1, Pos(compensation));
      if e.Stopped? {
        return Thrown(e.signal);
      }
      if e.status != Succeeded {
        return Thrown(Raised("COMPENSATION_FAILED"));
      }
      return Completed(false);
    }

    /** Skill and delay adapters may do anything but time the node out themselves. */
    method CallAdapter(n: int) returns (o: Outcome)
      requires Valid()
      modifies this`history
      ensures Valid() && history == old(history) + [Answered(n, o)] && !o.NodeTimedOut? && o != Completed(false)
    {
      var raised: bool := *;
      o := Completed(true);
      if raised {
        var signal: Signal := *;
        o := Thrown(signal);
      }
      Note(Answered(n, o));
    }

    method Dispatch(n: int) returns (o: Outcome)
      requires OnTop(n)
      modifies this`statuses, this`rows, this`executed, this`tolerated, this`history, this`stack
      ensures stack == old(stack) && old(history) <= history
      ensures Valid() && Kept(plan, old(Now()), Now(), Pos(n) + 1) && !o.NodeTimedOut?
      ensures o == Completed(true) ==> HonestMove(plan, statuses, n, Succeeded) && Delivered(plan, history, statuses, tolerated, n)
      decreases maxDepth - depth, |plan.order| - Pos(n), 3
    {
      match plan.nodes[n].kind
      case Condition(_, _) =>
        ghost var matched;
        o, matched := RunCondition(n);
      case Parallel(_, _) => o := RunParallel(n);
      case SubWorkflow(_, _, _) =>
        ghost var ended, child;
        o, ended, child := RunSubWorkflow(n);
      case _ =>
        o := CallAdapter(n);
        assert history[|history| - 1] == Answered(n, o);
    }

    /** `_dispatch_with_limits`: the node's or the workflow's deadline may cut the dispatch off. */
    method DispatchWithLimits(n: int) returns (o: Outcome, ghost late: bool, ghost nodeLimited: bool)
      requires OnTop(n)
      modifies this`statuses, this`rows, this`executed, this`tolerated, this`history, this`stack
      ensures stack == old(stack) && old(history) <= history
      ensures Valid() && Kept(plan, old(Now()), Now(), Pos(n) + 1)
      ensures o == Completed(true) ==> HonestMove(plan, statuses, n, Succeeded) && Delivered(plan, history, statuses, tolerated, n)
      ensures late ==> o == Thrown(WorkflowTimedOut) && Now() == old(Now())
      ensures o.NodeTimedOut? ==> nodeLimited
      decreases maxDepth - depth, |plan.order| - Pos(n), 4
    {
      var expired: bool, ownLimit: bool := *, *;
      late, nodeLimited := expired, ownLimit;
      if expired {
        o := Thrown(WorkflowTimedOut);
        return;
      }
      o := Dispatch(n);
      if o.Thrown? && (o.signal.BranchCancelled? || o.signal.Raised?) {
        var timedOut: bool := *;
        if timedOut {
          o := if ownLimit then NodeTimedOut else Thrown(WorkflowTimedOut);
        }
      }
    }

    /** How a dispatch that came back is judged: a deadline or cancellation noticed now counts. */
    method Judge(n: int, attempt: nat, returned: Outcome) returns (o: Outcome)
      requires Valid()
      modifies this`history
      ensures Valid() && old(history) <= history && |history| > |old(history)|
      ensures history[|history| - 1] == Ended(n, attempt, returned, o) && Judged(history[..|history| - 1], returned, o)
    {
      o := returned;
      if o.Completed? {
        var guard;
        ghost var cancelled, late;
        guard, cancelled, late := Guard();
        if guard.Some? {
          o := Thrown(guard.value);
        } else if !o.ok {
          o := Thrown(Raised("NODE_RETURNED_FAILURE"));
        }
      }
      ghost var before := history;
      Note(Ended(n, attempt, returned, o));
      assert history[..|history| - 1] == before;
    }

    function Verdict(o: Outcome): Status {
      match o
      case Completed(_) => Succeeded
      case NodeTimedOut => TimedOut
      case Thrown(BranchCancelled) => Cancelled
      case Thrown(WorkflowCancelled) => Cancelled
      case Thrown(WorkflowTimedOut) => TimedOut
      case Thrown(Raised(_)) => Failed
    }

    /** An attempt is TIMED_OUT exactly on a deadline, CANCELLED exactly on a cancellation, FAILED on any other exception. */
    lemma VerdictMeans(o: Outcome)
      ensures Verdict(o) == Succeeded <==> o.Completed?
      ensures Verdict(o) == TimedOut <==> o == NodeTimedOut || o == Thrown(WorkflowTimedOut)
      ensures Verdict(o) == Cancelled <==> o == Thrown(WorkflowCancelled) || o == Thrown(BranchCancelled)
      ensures Verdict(o) == Failed <==> o.Thrown? && o.signal.Raised?
    {
    }

    lemma VerdictMoves(n: int, attempt: nat, returned: Outcome, o: Outcome, was: History)
      requires n in plan.nodes && n in statuses && statuses[n] == Running && n in stack
      requires history != [] && history[|history| - 1] == Ended(n, attempt, returned, o) && Judged(history[..|history| - 1], returned, o)
      requires was <= history
      requires returned == Completed(true) ==> HonestMove(plan, statuses, n, Succeeded) && Delivered(plan, was, statuses, tolerated, n)
      ensures Terminal(Verdict(o)) && Verdict(o) != Skipped && Allowed(NodeTable, Running, Verdict(o))
      ensures HonestMove(plan, statuses, n, Verdict(o)) && Recorded(EndOf(o), Verdict(o))
      ensures Explains(plan, history, statuses, tolerated, stack, n, Verdict(o))
    {
      assert EndedWith(history, n, o);
      if o.Completed? {
        assert o == returned == Completed(true);
        DeliveredStands(plan, was, history, statuses, statuses, tolerated, tolerated, n);
      }
    }

    function EndOf(o: Outcome): AttemptEnd {
      match o
      case Completed(_) => Over(Finished(Succeeded))
      case NodeTimedOut => Over(Finished(TimedOut))
      case Thrown(Raised(code)) => FailedWith(code)
      case Thrown(signal) => Over(Stopped(signal))
    }

    /** The row agrees with how the attempt ended. */
    ghost predicate Recorded(end: AttemptEnd, status: Status) {
      match end
      case FailedWith(_) => status == Failed
      case Over(Finished(s)) => status == s && s in {Succeeded, TimedOut}
      case Over(Stopped(signal)) => !signal.Raised? && status == if signal.WorkflowTimedOut? then TimedOut else Cancelled
    }

    lemma RecordedEnds(end: AttemptEnd, status: Status)
      requires Recorded(end, status)
      ensures Terminal(status)
    {
    }

    /** The last event is the end of attempt `k` of `n`. */
    ghost predicate JustEnded(n: int, k: nat, end: AttemptEnd)
      reads this
    {
      && history != [] && history[|history| - 1].Ended? && history[|history| - 1].node == n && history[|history| - 1].attempt == k
      && end == EndOf(history[|history| - 1].outcome)
    }

    /** Write down how attempt `attempt`, which began at `b`, ended. */
    method Conclude(n: int, attempt: nat, returned: Outcome, ghost a: Book, ghost b: Book) returns (end: AttemptEnd)
      requires Valid() && n in plan.nodes && n in stack && KeptBut(plan, a, b, n) && Kept(plan, b, Now(), Pos(n) + 1)
      requires n in b.statuses && b.statuses[n] == Running && |b.rows[n]| == attempt
      requires returned == Completed(true) ==> HonestMove(plan, statuses, n, Succeeded) && Delivered(plan, history, statuses, tolerated, n)
      modifies this`statuses, this`rows, this`executed, this`history
      ensures Valid() && KeptBut(plan, a, Now(), n) && |rows[n]| == attempt && old(history) <= history
      ensures Recorded(end, statuses[n]) && JustEnded(n, attempt, end)
    {
      ghost var c := Now();
      RunningKept(plan, b, c, n);
      end := Finish(n, attempt, returned);
      AttemptKept(plan, a, b, c, Now(), n);
    }

    /** Judge what came back, and give the node the status it deserves. */
    method Finish(n: int, attempt: nat, returned: Outcome) returns (end: AttemptEnd)
      requires Valid() && n in plan.nodes && statuses[n] == Running && n in stack
      requires returned == Completed(true) ==> HonestMove(plan, statuses, n, Succeeded) && Delivered(plan, history, statuses, tolerated, n)
      modifies this`statuses, this`rows, this`executed, this`history
      ensures Valid() && KeptBut(plan, old(Now()), Now(), n) && |rows[n]| == |old(rows)[n]| && old(history) <= history
      ensures Recorded(end, statuses[n]) && JustEnded(n, attempt, end)
    {
      ghost var earlier := history;
      var o := Judge(n, attempt, returned);
      VerdictMoves(n, attempt, returned, o, earlier);
      Settle(n, Verdict(o));
      end := EndOf(o);
    }

    /** A node just started is on top of the call stack. */
    lemma NowOnTop(n: int, before: Book)
      requires Valid() && depth < maxDepth && n in plan.nodes && statuses[n] == Running
      requires KeptBut(plan, before, Now(), n) && StackBelow(plan, before.statuses, Pos(n)) && OthersRunning(before.statuses, stack, n)
      ensures OnTop(n)
    {
      StackPushed(plan, before, Now(), n);
      OthersKept(plan, before, Now(), stack, n);
    }

    method BeginOnTop(n: int, controller: Option<int>, attempt: nat)
      requires Valid() && depth < maxDepth && n in plan.nodes && 1 <= attempt <= plan.nodes[n].maxAttempts
      requires MayBegin(n, controller, attempt) && LastClear(history)
      requires n in stack && OthersRunning(statuses, stack, n) && StackBelow(plan, statuses, Pos(n))
      modifies this`statuses, this`rows, this`executed, this`history
      ensures OnTop(n) && KeptBut(plan, old(Now()), Now(), n) && |rows[n]| == attempt && old(history) <= history
    {
      ghost var before := Now();
      Begin(n, controller, attempt);
      NowOnTop(n, before);
    }

    /** One attempt: start, dispatch, record how it ended. */
    method RunAttempt(n: int, controller: Option<int>, attempt: nat) returns (end: AttemptEnd)
      requires Valid() && depth < maxDepth && n in plan.nodes && 1 <= attempt <= plan.nodes[n].maxAttempts
      requires MayBegin(n, controller, attempt) && LastClear(history)
      requires n in stack && OthersRunning(statuses, stack, n)
      requires StackBelow(plan, statuses, Pos(n))
      modifies this`statuses, this`rows, this`executed, this`tolerated, this`history, this`stack
      ensures stack == old(stack) && old(history) <= history
      ensures Valid() && KeptBut(plan, old(Now()), Now(), n) && |rows[n]| == attempt
      ensures Recorded(end, statuses[n]) && JustEnded(n, attempt, end)
      decreases maxDepth - depth, |plan.order| - Pos(n), 5, 1
    {
      ghost var before := Now();
      BeginOnTop(n, controller, attempt);
      end := DispatchOnce(n, attempt, before);
    }

    method DispatchOnce(n: int, attempt: nat, ghost before: Book) returns (end: AttemptEnd)
      requires OnTop(n) && n in stack && |rows[n]| == attempt && KeptBut(plan, before, Now(), n)
      modifies this`statuses, this`rows, this`executed, this`tolerated, this`history, this`stack
      ensures stack == old(stack) && old(history) <= history
      ensures Valid() && KeptBut(plan, before, Now(), n) && |rows[n]| == attempt
      ensures Recorded(end, statuses[n]) && JustEnded(n, attempt, end)
      decreases maxDepth - depth, |plan.order| - Pos(n), 5, 0
    {
      ghost var b := Now();
      var returned;
      ghost var late, nodeLimited;
      returned, late, nodeLimited := DispatchWithLimits(n);
      end := Conclude(n, attempt, returned, before, b);
    }

    /** One attempt seen from where the retries began. */
    method NextAttempt(n: int, controller: Option<int>, attempt: nat, ghost first: Book) returns (end: AttemptEnd)
      requires Valid() && depth < maxDepth && n in plan.nodes && 1 <= attempt <= plan.nodes[n].maxAttempts
      requires MayBegin(n, controller, attempt) && LastClear(history)
      requires n in stack && OthersRunning(statuses, stack, n)
      requires KeptBut(plan, first, Now(), n) && StackBelow(plan, statuses, Pos(n))
      modifies this`statuses, this`rows, this`executed, this`tolerated, this`history, this`stack
      ensures stack == old(stack) && old(history) <= history
      ensures Valid() && KeptBut(plan, first, Now(), n) && StackBelow(plan, statuses, Pos(n)) && |rows[n]| == attempt
      ensures Recorded(end, statuses[n]) && Terminal(statuses[n]) && JustEnded(n, attempt, end)
      ensures OthersRunning(statuses, stack, n)
      decreases maxDepth - depth, |plan.order| - Pos(n), 6
    {
      ghost var earlier := Now();
      end := RunAttempt(n, controller, attempt);
      RecordedEnds(end, statuses[n]);
      KeptButTransitive(plan, first, earlier, Now(), n);
      StackKept(plan, earlier, Now(), n);
      OthersKept(plan, earlier, Now(), stack, n);
    }

    /** A look at cancellation and deadline takes nothing away from the next attempt. */
    lemma StillMayBegin(n: int, controller: Option<int>, attempt: nat, was: History)
      requires Valid() && n in plan.nodes && was <= history && n in statuses && n in rows
      requires if attempt == 1 then statuses[n] == Pending && AllSatisfied(n, controller) && Asked(plan, was, statuses, controller, n)
        else statuses[n] == Failed && |rows[n]| == attempt - 1 && Retried(plan, was, n, attempt - 1)
      ensures MayBegin(n, controller, attempt)
    {
      if attempt == 1 {
        AskedStands(plan, was, history, statuses, controller, n);
      } else {
        var i :| 0 <= i < |was| && Retryable(plan, was[i], n, attempt - 1);
        assert history[i] == was[i];
      }
    }

    /** The node is left FAILED for good, because of the code of its last attempt or because there are no more. */
    ghost method NoteGivenUp(n: int, attempt: nat, code: string)
      requires Valid() && n in plan.nodes && JustEnded(n, attempt, FailedWith(code))
      requires attempt == plan.nodes[n].maxAttempts || code !in plan.nodes[n].retryOn
      modifies this`history
      ensures Valid() && old(history) <= history && LeftFailed(history, n)
    {
      Note(GaveUp(n, attempt, code));
      assert history[|history| - 1] == GaveUp(n, attempt, code);
    }

    /** What an attempt's end says about signals and retries. */
    lemma EndSays(n: int, attempt: nat, end: AttemptEnd)
      requires JustEnded(n, attempt, end) && n in plan.nodes
      ensures end.Over? && end.ending.Stopped? ==> SawSignal(history, end.ending.signal)
      ensures end.FailedWith? && end.code in plan.nodes[n].retryOn ==> Retried(plan, history, n, attempt)
    {
      var e := history[|history| - 1];
      assert end.FailedWith? && end.code in plan.nodes[n].retryOn ==> Retryable(plan, e, n, attempt);
    }

    /** A stop between two attempts leaves a failed node failed. */
    ghost method NoteCutShort(n: int, signal: Signal)
      requires Valid() && history != [] && history[|history| - 1] == Checked(Some(signal))
      modifies this`history
      ensures Valid() && old(history) <= history && LeftFailed(history, n) && SawSignal(history, signal)
    {
      ghost var at := |history| - 1;
      Note(CutShort(n, signal));
      assert history[at] == Checked(Some(signal)) && history[at + 1] == CutShort(n, signal);
    }

    /** How the attempts of `n` have ended. */
    ghost predicate AttemptsOver(n: int, e: Ending)
      reads this
    {
      && n in statuses && statuses[n] != Running
      && (statuses[n] == Failed ==> LeftFailed(history, n))
      && (e.Finished? ==> statuses[n] == e.status && e.status in {Succeeded, Failed, TimedOut})
      && (e.Stopped? ==> !e.signal.Raised? && SawSignal(history, e.signal))
    }

    /** One turn of the retry loop: over, or another attempt to come. */
    method TryOnce(n: int, controller: Option<int>, attempt: nat, ghost first: Book) returns (over: Option<Ending>)
      requires Valid() && depth < maxDepth && n in plan.nodes && 1 <= attempt <= plan.nodes[n].maxAttempts && MayBegin(n, controller, attempt)
      requires n in stack && OthersRunning(statuses, stack, n)
      requires KeptBut(plan, first, Now(), n) && StackBelow(plan, statuses, Pos(n))
      modifies this`statuses, this`rows, this`executed, this`tolerated, this`history, this`stack
      ensures stack == old(stack) && old(history) <= history
      ensures Valid() && KeptBut(plan, first, Now(), n) && StackBelow(plan, statuses, Pos(n)) && OthersRunning(statuses, stack, n)
      ensures over.Some? ==> AttemptsOver(n, over.value)
      ensures over.None? ==> attempt < plan.nodes[n].maxAttempts && MayBegin(n, controller, attempt + 1)
      decreases maxDepth - depth, |plan.order| - Pos(n), 7, 0
    {
      var stop := GuardAttempt(n, controller, attempt);
      if stop.Some? {
        return Some(Stopped(stop.value));
      }
      var end := NextAttempt(n, controller, attempt, first);
      over := Decide(n, controller, attempt, end);
    }

    /** The look before an attempt; a stop leaves the node as it is. */
    method GuardAttempt(n: int, controller: Option<int>, attempt: nat) returns (stop: Option<Signal>)
      requires Valid() && n in plan.nodes && attempt >= 1 && MayBegin(n, controller, attempt)
      modifies this`history
      ensures Valid() && old(history) <= history
      ensures stop.None? ==> LastClear(history) && MayBegin(n, controller, attempt)
      ensures stop.Some? ==> AttemptsOver(n, Stopped(stop.value))
    {
      ghost var was := history;
      ghost var cancelled, late;
      stop, cancelled, late := Guard();
      if stop.Some? {
        NoteCutShort(n, stop.value);
      } else {
        StillMayBegin(n, controller, attempt, was);
      }
    }

    /** After an attempt: another one, if there is one left and its failure is listed; otherwise its end is the node's. */
    method Decide(n: int, controller: Option<int>, attempt: nat, end: AttemptEnd) returns (over: Option<Ending>)
      requires Valid() && n in plan.nodes && 1 <= attempt <= plan.nodes[n].maxAttempts && |rows[n]| == attempt
      requires Recorded(end, statuses[n]) && JustEnded(n, attempt, end)
      modifies this`history
      ensures Valid() && old(history) <= history
      ensures over.Some? ==> AttemptsOver(n, over.value)
      ensures over.None? ==> attempt < plan.nodes[n].maxAttempts && MayBegin(n, controller, attempt + 1)
    {
      EndSays(n, attempt, end);
      if end.Over? {
        return Some(end.ending);
      }
      if attempt < plan.nodes[n].maxAttempts && end.code in plan.nodes[n].retryOn {
        return None;
      }
      NoteGivenUp(n, attempt, end.code);
      return Some(Finished(Failed));
    }

    /** The retry loop: another attempt only below the limit and for a code listed in `retry_on`. */
    method RetryLoop(n: int, controller: Option<int>) returns (e: Ending)
      requires Valid() && depth < maxDepth && n in plan.nodes && MayBegin(n, controller, 1)
      requires n in stack && OthersRunning(statuses, stack, n)
      requires StackBelow(plan, statuses, Pos(n))
      modifies this`statuses, this`rows, this`executed, this`tolerated, this`history, this`stack
      ensures stack == old(stack) && old(history) <= history
      ensures Valid() && KeptBut(plan, old(Now()), Now(), n) && AttemptsOver(n, e)
      decreases maxDepth - depth, |plan.order| - Pos(n), 7, 1
    {
      var attempt := 1;
      var over := TryOnce(n, controller, attempt, old(Now()));
      while over.None?
        invariant Valid() && KeptBut(plan, old(Now()), Now(), n)
        invariant stack == old(stack) && old(history) <= history && OthersRunning(statuses, stack, n) && StackBelow(plan, statuses, Pos(n))
        invariant over.None? ==> 1 <= attempt < plan.nodes[n].maxAttempts && MayBegin(n, controller, attempt + 1)
        invariant over.Some? ==> AttemptsOver(n, over.value)
        decreases if over.None? then plan.nodes[n].maxAttempts - attempt else 0
      {
        attempt := attempt + 1;
        over := TryOnce(n, controller, attempt, old(Now()));
      }
      return over.value;
    }

    ghost method Push(n: int)
      requires Valid() && n in statuses && statuses[n] == Pending
      modifies this`stack
      ensures Valid() && stack == old(stack) + {n}
    {
      StackKeepsInvariant(plan, statuses, rows, executed, tolerated, history, stack, stack + {n});
      stack := stack + {n};
    }

    ghost method Pop(n: int, outer: set<int>)
      requires Valid() && n in statuses && stack == outer + {n} && (statuses[n] == Failed ==> LeftFailed(history, n))
      modifies this`stack
      ensures Valid() && stack == outer
    {
      StackKeepsInvariant(plan, statuses, rows, executed, tolerated, history, stack, outer);
      stack := outer;
    }

    /** The attempts of `n`, from the first start to the last verdict. */
    method RunAttempts(n: int, controller: Option<int>) returns (e: Ending)
      requires Valid() && StackRunning() && depth < maxDepth && n in plan.nodes && MayBegin(n, controller, 1)
      requires StackBelow(plan, statuses, Pos(n))
      modifies this`statuses, this`rows, this`executed, this`tolerated, this`history, this`stack
      ensures stack == old(stack) && old(history) <= history
      ensures Valid() && KeptBut(plan, old(Now()), Now(), n) && AttemptsOver(n, e)
      decreases maxDepth - depth, |plan.order| - Pos(n), 8
    {
      ghost var outer := stack;
      Push(n);
      e := RetryLoop(n, controller);
      Pop(n, outer);
    }

    method SkipBlocked(n: int)
      requires Valid() && StackRunning() && n in plan.nodes && statuses[n] == Pending
      requires exists d :: d in plan.nodes[n].dependsOn && d in statuses && Blocks(statuses[d])
      modifies this`statuses, this`rows, this`executed
      ensures Valid() && statuses == old(statuses)[n := Skipped] && Kept(plan, old(Now()), Now(), Pos(n))
      ensures exists d :: BlockedBy(plan, old(statuses), stack, n, d)
    {
      var d :| d in plan.nodes[n].dependsOn && d in statuses && Blocks(statuses[d]);
      assert BlockedBy(plan, statuses, stack, n, d);
      Skip(n);
    }

    /** `_execute_node`: run `n` once its dependencies allow it, on behalf of `controller` if there is one. */
    method ExecuteNode(n: int, controller: Option<int>) returns (e: Ending)
      requires Valid() && StackRunning() && depth < maxDepth && n in plan.nodes && AskedNow(n, controller)
      requires StackBelow(plan, statuses, Pos(n))
      modifies this`statuses, this`rows, this`executed, this`tolerated, this`history, this`stack
      ensures stack == old(stack) && old(history) <= history
      ensures Valid() && Kept(plan, old(Now()), Now(), Pos(n))
      ensures e.Finished? ==> statuses[n] == e.status && Terminal(e.status)
      ensures e.Stopped? ==> if e.signal.Raised? then old(Waiting(n)) else SawSignal(history, e.signal)
      ensures n !in old(executed) && e.Finished? ==> e.status in {Succeeded, Failed, TimedOut, Skipped}
      ensures n !in old(executed) && e == Finished(Skipped) ==> exists d :: BlockedBy(plan, old(statuses), stack, n, d)
      decreases maxDepth - depth, |plan.order| - Pos(n), 9
    {
      assert NodeOkAt(plan, statuses, rows, executed, n);
      if n in executed {
        return Finished(statuses[n]);
      }
      var gate := CheckDependencies(n, controller);
      match gate
      case Blocked =>
        SkipBlocked(n);
        return Finished(Skipped);
      case Unsettled =>
        return Stopped(Raised("WorkflowExecutionError"));
      case Open =>
        e := RunAttempts(n, controller);
        AttemptsKept(plan, old(Now()), Now(), n);
    }

    /** What has been executed since `before` was cancelled; nothing else has changed. */
    ghost predicate CancelledSince(was: Statuses, before: set<int>, now: Statuses, done: set<int>) {
      && was.Keys == now.Keys && before <= done
      && forall m :: m in was ==> now[m] == if m in done && m !in before then Cancelled else was[m]
    }

    lemma CancelledMore(was: Statuses, before: set<int>, now: Statuses, done: set<int>, n: int)
      requires CancelledSince(was, before, now, done) && n in now && n !in done
      ensures CancelledSince(was, before, now[n := Cancelled], done + {n})
    {
    }

    method CancelOne(n: int)
      requires Valid() && StackBelow(plan, statuses, 0) && n in plan.nodes
      modifies this`statuses, this`rows, this`executed
      ensures Valid() && StackBelow(plan, statuses, 0) && n in executed
      ensures FinishedStay(old(statuses), statuses) && Terminal(statuses[n])
      ensures n in old(executed) ==> statuses == old(statuses) && executed == old(executed)
      ensures n !in old(executed) ==> statuses == old(statuses)[n := Cancelled] && executed == old(executed) + {n}
    {
      assert NodeOkAt(plan, statuses, rows, executed, n);
      if n !in executed {
        Settle(n, Cancelled);
      }
    }

    /** `_cancel_remaining`: every node not executed yet is cancelled. */
    method CancelRemaining()
      requires Valid() && StackBelow(plan, statuses, 0)
      modifies this`statuses, this`rows, this`executed
      ensures Valid() && AllFinished(statuses, plan.order)
      ensures CancelledSince(old(statuses), old(executed), statuses, plan.nodes.Keys)
    {
      for i := 0 to |plan.order|
        invariant Valid() && StackBelow(plan, statuses, 0) && AllFinished(statuses, plan.order[..i])
        invariant CancelledSince(old(statuses), old(executed), statuses, executed)
      {
        var n := plan.order[i];
        assert n in plan.order;
        ghost var earlier, done := statuses, executed;
        CancelOne(n);
        FinishedGrows(earlier, statuses, plan.order, i);
        if n !in done {
          CancelledMore(old(statuses), old(executed), earlier, done, n);
        }
      }
      assert plan.order[..|plan.order|] == plan.order;
      AllExecuted();
    }

    lemma AllExecuted()
      requires Valid() && AllFinished(statuses, plan.order)
      ensures executed == plan.nodes.Keys
    {
      forall m | m in plan.nodes ensures m in executed {
        assert m in plan.order && NodeOkAt(plan, statuses, rows, executed, m);
      }
    }

    ghost predicate ReadyNodesFinished(i: nat)
      requires i <= |plan.order|
      reads this
    {
      ReadyFinished(plan, statuses, i)
    }

    /** At the top level every dependency of the next node has finished. */
    lemma NothingToWaitFor(i: nat)
      requires Valid() && i < |plan.order| && ReadyNodesFinished(i)
      ensures plan.order[i] in plan.nodes && !Waiting(plan.order[i])
    {
      var n := plan.order[i];
      assert n in plan.order;
      PositionIs(plan.order, i);
      forall d | d in plan.nodes[n].dependsOn ensures d in statuses && Terminal(statuses[d]) {
        assert Before(plan, d, n) && d in plan.order;
        assert plan.order[Pos(d)] == d;
      }
    }

    /** One turn of the top-level loop. */
    method RunNext(i: nat) returns (s: Option<Signal>)
      requires Valid() && stack == {} && depth < maxDepth && i < |plan.order| && ReadyNodesFinished(i) && StackBelow(plan, statuses, 0)
      modifies this`statuses, this`rows, this`executed, this`tolerated, this`history, this`stack
      ensures stack == old(stack) && old(history) <= history
      ensures Valid() && StackBelow(plan, statuses, 0)
      ensures s.None? ==> ReadyNodesFinished(i + 1)
      ensures s.Some? ==> !s.value.Raised? && SawSignal(history, s.value)
      decreases maxDepth - depth, |plan.order| + 1, 0
    {
      ghost var cancelled, late;
      s, cancelled, late := Guard();
      if s.Some? {
        return;
      }
      var n := plan.order[i];
      NothingToWaitFor(i);
      assert NodeOkAt(plan, statuses, rows, executed, n);
      ghost var earlier := Now();
      if n !in executed && n !in CompensationNodes(plan) {
        var e := ExecuteNode(n, None);
        if e.Stopped? {
          return Some(e.signal);
        }
      }
      ReadyGrows(plan, earlier, Now(), i);
    }

    /** The body of `execute` between start and result: every node finished, or why not. */
    method RunOrder() returns (s: Option<Signal>)
      requires Valid() && stack == {} && depth < maxDepth && StackBelow(plan, statuses, 0)
      modifies this`statuses, this`rows, this`executed, this`tolerated, this`history, this`stack
      ensures stack == old(stack) && old(history) <= history
      ensures Valid() && StackBelow(plan, statuses, 0)
      ensures s.None? ==> AllFinished(statuses, plan.order)
      ensures s.Some? ==> !s.value.Raised? && SawSignal(history, s.value)
      ensures s.None? ==> LastClear(history)
      decreases maxDepth - depth, |plan.order| + 1, 1
    {
      for i := 0 to |plan.order|
        invariant Valid() && stack == {} && StackBelow(plan, statuses, 0) && ReadyNodesFinished(i) && old(history) <= history
      {
        s := RunNext(i);
        if s.Some? {
          return;
        }
      }
      SkipCompensations();
      ghost var cancelled, late;
      s, cancelled, late := Guard();
    }

    lemma CompensationExcluded(n: int)
      requires n in CompensationNodes(plan)
      ensures Excluded(plan, history, n)
    {
      var p :| p in plan.nodes && plan.nodes[p].kind.SubWorkflow? && plan.nodes[p].kind.failure == Compensate
        && plan.nodes[p].kind.compensation == Some(n);
      assert ExcludedBy(plan, history, p, n);
    }

    method SkipCompensation(i: nat)
      requires Valid() && StackBelow(plan, statuses, 0) && ReadyNodesFinished(|plan.order|) && i < |plan.order|
      modifies this`statuses, this`rows, this`executed
      ensures Valid() && StackBelow(plan, statuses, 0) && ReadyNodesFinished(|plan.order|)
      ensures FinishedStay(old(statuses), statuses) && plan.order[i] in statuses && Terminal(statuses[plan.order[i]])
    {
      var n := plan.order[i];
      assert n in plan.order;
      assert NodeOkAt(plan, statuses, rows, executed, n);
      if n in CompensationNodes(plan) && n !in executed {
        CompensationExcluded(n);
        Skip(n);
      }
    }

    /** Compensation nodes nobody asked for are skipped. */
    method SkipCompensations()
      requires Valid() && StackBelow(plan, statuses, 0) && ReadyNodesFinished(|plan.order|)
      modifies this`statuses, this`rows, this`executed
      ensures Valid() && StackBelow(plan, statuses, 0) && AllFinished(statuses, plan.order)
    {
      for i := 0 to |plan.order|
        invariant Valid() && StackBelow(plan, statuses, 0) && ReadyNodesFinished(|plan.order|)
        invariant AllFinished(statuses, plan.order[..i])
      {
        ghost var earlier := statuses;
        SkipCompensation(i);
        FinishedGrows(earlier, statuses, plan.order, i);
      }
      assert plan.order[..|plan.order|] == plan.order;
    }

    /** `_start_workflow` and `_finish_workflow`: the run's own row. */
    method MoveRun(to: Status)
      requires Allowed(WorkflowTable, run, to)
      modifies this`run
      ensures run == to
    {
      run := to;
    }

    /** `execute`: whenever it returns a result every node run is finished, and the result is what they add up to. */
    method Execute() returns (e: Ending)
      requires Valid() && run == Pending && stack == {} && forall n :: n in statuses ==> statuses[n] == Pending
      modifies this
      ensures Valid() && stack == {} && !(e.Stopped? && e.signal in {WorkflowCancelled, WorkflowTimedOut})
      ensures e.Finished? ==> run == e.status && AllFinished(statuses, plan.order)
      ensures e.Finished? ==> e.status in {Succeeded, Failed, Cancelled, TimedOut}
      ensures e == Finished(Succeeded) ==> forall n :: n in statuses && statuses[n] in {Failed, TimedOut, RequiresReview} ==> n in tolerated
      ensures e == Finished(Failed) ==> exists n :: n in statuses && statuses[n] in {Failed, TimedOut, RequiresReview} && n !in tolerated
      ensures e == Finished(Succeeded) || e == Finished(Failed) ==> LastClear(history)
      ensures e == Finished(Cancelled) ==> SawSignal(history, WorkflowCancelled)
      ensures e == Finished(TimedOut) ==> SawSignal(history, WorkflowTimedOut)
      ensures depth >= maxDepth <==> e == Stopped(Raised("maximum sub-workflow depth exceeded"))
      decreases maxDepth - depth, |plan.order| + 1, 2
    {
      if depth >= maxDepth {
        return Stopped(Raised("maximum sub-workflow depth exceeded"));
      }
      MoveRun(Ready);
      MoveRun(Running);
      var s := RunOrder();
      match s
      case Some(WorkflowCancelled) =>
        CancelRemaining();
        MoveRun(Cancelled);
        return Finished(Cancelled);
      case Some(WorkflowTimedOut) =>
        CancelRemaining();
        MoveRun(TimedOut);
        return Finished(TimedOut);
      case Some(signal) =>
        return Stopped(signal);
      case None =>
        if exists n :: n in statuses && Unexcused(statuses, tolerated, n) {
          MoveRun(Failed);
          return Finished(Failed);
        }
        var unresolved: bool := *;
        if unresolved {
          return Stopped(Raised("workflow reference not found"));
        }
        MoveRun(Succeeded);
        return Finished(Succeeded);
    }
  }
}
