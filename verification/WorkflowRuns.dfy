// active_agent_platform/workflow_runs.py: run and node projections with append-only transition logs.
// A raised error rolls the caller's transaction back, so it leaves the tables as they were.

module RunLog {
  import opened Wrappers

  datatype Status = Pending | Ready | Running | Succeeded | Failed | TimedOut | Cancelled | Skipped | RequiresReview

  /** Workflow runs and node runs share everything but their transition table. */
  datatype Table = WorkflowTable | NodeTable

  predicate Terminal(s: Status) {
    s in {Succeeded, Failed, TimedOut, Cancelled, Skipped, RequiresReview}
  }

  predicate ErrorState(s: Status) {
    s in {Failed, TimedOut, RequiresReview}
  }

  /** `_WORKFLOW_TRANSITIONS` and `_NODE_TRANSITIONS`. */
  predicate Allowed(table: Table, current: Status, target: Status) {
    match current
    case Pending => target in {Ready, Cancelled} || (table.NodeTable? && target == Skipped)
    case Ready => target in {Running, Cancelled, TimedOut} || (table.NodeTable? && target == Skipped)
    case Running => target in {Succeeded, Failed, TimedOut, Cancelled} || (table.NodeTable? && target in {Skipped, RequiresReview})
    case _ => false
  }

  datatype Row = Row(status: Status, version: nat, startedAt: Option<int>, finishedAt: Option<int>, errorId: Option<string>)

  datatype Entry<K> = Entry(key: K, from: Option<Status>, to: Status, reason: string, version: nat, event: int, at: int, errorId: Option<string>)

  datatype Store<K> = Store(rows: map<K, Row>, log: seq<Entry<K>>)

  datatype RunError =
    | NotFound | AlreadyExists | EventReused | InvalidTransition | InvalidReason
    | ErrorRequired | ErrorNotAllowed | VersionConflict | OutputNotAllowed | TwoOutputs | OutputTooLarge
    | AttemptNotSequential | AttemptNotPositive

  // ---- The log alone determines the row.

  function FirstRow(): Row {
    Row(Pending, 0, None, None, None)
  }

  function Advance<K>(row: Row, e: Entry<K>): Row {
    Row(e.to, e.version,
        if e.to == Running then Some(e.at) else row.startedAt,
        if Terminal(e.to) then Some(e.at) else None,
        e.errorId)
  }

  /** The row a key should have, replayed from the log alone. */
  function Replay<K(==)>(log: seq<Entry<K>>, key: K): Option<Row> {
    if log == [] then None
    else
      var earlier, e := Replay(log[..|log| - 1], key), log[|log| - 1];
      if e.key != key then earlier
      else if e.from.None? then Some(FirstRow())
      else if earlier.Some? then Some(Advance(earlier.value, e))
      else None
  }

  function History<K(==)>(log: seq<Entry<K>>, key: K): (h: seq<Entry<K>>)
    ensures forall i :: 0 <= i < |h| ==> h[i].key == key && h[i] in log
  {
    if log == [] then []
    else
      var e := log[|log| - 1];
      History(log[..|log| - 1], key) + if e.key == key then [e] else []
  }

  /** Versions 0, 1, 2, ..., each status reached from the one before by an allowed step. */
  ghost predicate Chained<K>(table: Table, h: seq<Entry<K>>) {
    && (forall i :: 0 <= i < |h| ==> h[i].version == i)
    && (h != [] ==> h[0].from.None? && h[0].to == Pending && h[0].errorId.None?)
    && (forall i :: 1 <= i < |h| ==> h[i].from == Some(h[i - 1].to) && Allowed(table, h[i - 1].to, h[i].to))
    && (forall i :: 0 <= i < |h| ==> (h[i].errorId.Some? <==> ErrorState(h[i].to)))
  }

  ghost predicate EventsUnique<K>(log: seq<Entry<K>>) {
    forall i, j :: 0 <= i < j < |log| ==> log[i].event != log[j].event
  }

  ghost predicate WellKept(row: Row) {
    && (row.finishedAt.Some? <==> Terminal(row.status))
    && (row.errorId.Some? <==> ErrorState(row.status))
  }

  /** The row is the head of its history. */
  ghost predicate HeadOf<K>(rows: map<K, Row>, key: K, h: seq<Entry<K>>) {
    && (key in rows <==> h != [])
    && (key in rows ==>
          && rows[key].status == h[|h| - 1].to && rows[key].version == |h| - 1
          && WellKept(rows[key]))
  }

  ghost predicate ReplayedRow<K>(s: Store<K>, key: K) {
    key in s.rows ==> Replay(s.log, key) == Some(s.rows[key])
  }

  ghost predicate ConsistentAt<K>(table: Table, s: Store<K>, key: K) {
    && Chained(table, History(s.log, key))
    && HeadOf(s.rows, key, History(s.log, key))
    && ReplayedRow(s, key)
  }

  /** The projection is the fold of its append-only log, key by key. */
  ghost predicate Consistent<K(!new)>(table: Table, s: Store<K>) {
    EventsUnique(s.log) && forall key: K {:trigger ConsistentAt(table, s, key)} :: ConsistentAt(table, s, key)
  }

  lemma AppendOther<K>(log: seq<Entry<K>>, e: Entry<K>, key: K)
    requires e.key != key
    ensures History(log + [e], key) == History(log, key) && Replay(log + [e], key) == Replay(log, key)
  {
    assert (log + [e])[..|log|] == log;
  }

  lemma AppendOwn<K>(log: seq<Entry<K>>, e: Entry<K>)
    ensures History(log + [e], e.key) == History(log, e.key) + [e]
    ensures e.from.None? ==> Replay(log + [e], e.key) == Some(FirstRow())
    ensures e.from.Some? && Replay(log, e.key).Some? ==>
      Replay(log + [e], e.key) == Some(Advance(Replay(log, e.key).value, e))
  {
    assert (log + [e])[..|log|] == log;
  }

  predicate EventSeen<K>(log: seq<Entry<K>>, event: int) {
    exists i :: 0 <= i < |log| && log[i].event == event
  }

  // ---- Operations on the tables.

  /** Insert a fresh PENDING row and its version-0 log entry. */
  function Created<K(==)>(s: Store<K>, key: K, event: int, at: int): Result<Store<K>, RunError> {
    if key in s.rows || EventSeen(s.log, event) then Err(AlreadyExists)
    else Ok(Store(s.rows[key := FirstRow()], s.log + [Entry(key, None, Pending, "created", 0, event, at, None)]))
  }

  /** `_transition_fields`: a reason of 1 to 500 characters, an error id exactly for error states. */
  function FieldProblem(to: Status, reason: string, errorId: Option<string>): Option<RunError> {
    if reason == "" || |reason| > 500 then Some(InvalidReason)
    else if ErrorState(to) && (errorId.None? || errorId.value == "") then Some(ErrorRequired)
    else if !ErrorState(to) && errorId.Some? then Some(ErrorNotAllowed)
    else None
  }

  /** A request to move one row. */
  datatype Move = Move(to: Status, expectedVersion: int, reason: string, at: int, event: int, errorId: Option<string>)

  function SameMove<K(==)>(log: seq<Entry<K>>, key: K, m: Move): bool {
    exists i :: 0 <= i < |log| && log[i].event == m.event && log[i].key == key && log[i].to == m.to
  }

  /** Compare-and-swap on version and status, then append to the log. */
  function Moved<K(==)>(table: Table, s: Store<K>, key: K, m: Move): (r: Result<Store<K>, RunError>)
  {
    if key !in s.rows then Err(NotFound)
    else if EventSeen(s.log, m.event) then if SameMove(s.log, key, m) then Ok(s) else Err(EventReused)
    else
      var row := s.rows[key];
      if !Allowed(table, row.status, m.to) then Err(InvalidTransition)
      else if FieldProblem(m.to, m.reason, m.errorId).Some? then Err(FieldProblem(m.to, m.reason, m.errorId).value)
      else if row.version != m.expectedVersion then Err(VersionConflict)
      else
        var e := Entry(key, Some(row.status), m.to, m.reason, row.version + 1, m.event, m.at, m.errorId);
        Ok(Store(s.rows[key := Advance(row, e)], s.log + [e]))
  }

  /** The two tables: nothing leaves a terminal status, RUNNING leads to every terminal one, and only node attempts can be
      skipped or sent to review. */
  lemma TablesMean(table: Table, current: Status, target: Status)
    ensures Allowed(table, current, target) <==>
      match current
      case Pending => target == Ready || target == Cancelled || (target == Skipped && table == NodeTable)
      case Ready => target == Running || target == Cancelled || target == TimedOut || (target == Skipped && table == NodeTable)
      case Running => Terminal(target) && (target == Skipped || target == RequiresReview ==> table == NodeTable)
      case _ => false
    ensures Allowed(table, current, target) ==> !Terminal(current) && target != Pending
  {
  }

  /** In a consistent history a workflow run is never SKIPPED nor in REQUIRES_REVIEW. */
  lemma {:induction false} RunsNeverSkipped<K>(h: seq<Entry<K>>, i: nat)
    requires Chained(WorkflowTable, h) && i < |h|
    ensures h[i].to != Skipped && h[i].to != RequiresReview
  {
    if i > 0 {
      assert h[i].from == Some(h[i - 1].to) && Allowed(WorkflowTable, h[i - 1].to, h[i].to);
    }
  }

  /** What a transition has to bring along. */
  lemma FieldsMean(to: Status, reason: string, errorId: Option<string>)
    ensures FieldProblem(to, reason, errorId).None? <==>
      && 1 <= |reason| <= 500
      && (to == Failed || to == TimedOut || to == RequiresReview ==> errorId.Some? && |errorId.value| > 0)
      && (to != Failed && to != TimedOut && to != RequiresReview ==> errorId.None?)
  {
  }

  /** An event id used before is accepted again exactly for the same row and target. */
  lemma ReuseExact<K>(table: Table, s: Store<K>, key: K, m: Move, i: nat)
    requires EventsUnique(s.log) && key in s.rows && i < |s.log| && s.log[i].event == m.event
    ensures Moved(table, s, key, m) == if s.log[i].key == key && s.log[i].to == m.to then Ok(s) else Err(EventReused)
  {
  }

  lemma EventsStayUnique<K>(log: seq<Entry<K>>, e: Entry<K>)
    requires EventsUnique(log) && !EventSeen(log, e.event)
    ensures EventsUnique(log + [e])
  {
  }

  lemma OtherKeysKept<K>(table: Table, s: Store<K>, e: Entry<K>, row: Row, key: K)
    requires key != e.key && ConsistentAt(table, s, key)
    ensures ConsistentAt(table, Store(s.rows[e.key := row], s.log + [e]), key)
  {
    AppendOther(s.log, e, key);
  }

  lemma ChainFirst<K>(table: Table, e: Entry<K>)
    requires e.from.None? && e.to == Pending && e.version == 0 && e.errorId.None?
    ensures Chained(table, [e])
  {
  }

  lemma ChainNext<K>(table: Table, h: seq<Entry<K>>, e: Entry<K>)
    requires Chained(table, h) && h != []
    requires e.from == Some(h[|h| - 1].to) && Allowed(table, h[|h| - 1].to, e.to)
    requires e.version == |h| && (e.errorId.Some? <==> ErrorState(e.to))
    ensures Chained(table, h + [e])
  {
    var g := h + [e];
    forall i | 1 <= i < |g| ensures g[i].from == Some(g[i - 1].to) && Allowed(table, g[i - 1].to, g[i].to) {
      if i < |h| {
        assert h[i].from == Some(h[i - 1].to) && Allowed(table, h[i - 1].to, h[i].to);
      }
    }
  }

  lemma OwnKeyCreated<K>(table: Table, s: Store<K>, e: Entry<K>)
    requires ConsistentAt(table, s, e.key) && e.key !in s.rows
    requires e.from.None? && e.to == Pending && e.version == 0 && e.errorId.None?
    ensures ConsistentAt(table, Store(s.rows[e.key := FirstRow()], s.log + [e]), e.key)
  {
    AppendOwn(s.log, e);
    FirstHead(s.rows, e);
    ChainFirst(table, e);
    assert History(s.log, e.key) + [e] == [e];
  }

  lemma FirstHead<K>(rows: map<K, Row>, e: Entry<K>)
    requires e.to == Pending
    ensures HeadOf(rows[e.key := FirstRow()], e.key, [e])
  {
  }

  lemma AdvanceWellKept<K>(row: Row, e: Entry<K>)
    requires WellKept(row) && !Terminal(row.status)
    requires (e.errorId.Some? <==> ErrorState(e.to))
    ensures WellKept(Advance(row, e))
  {
  }

  lemma OwnKeyMoved<K>(table: Table, s: Store<K>, e: Entry<K>)
    requires ConsistentAt(table, s, e.key) && e.key in s.rows
    requires e.from == Some(s.rows[e.key].status) && Allowed(table, s.rows[e.key].status, e.to)
    requires e.version == s.rows[e.key].version + 1 && (e.errorId.Some? <==> ErrorState(e.to))
    ensures ConsistentAt(table, Store(s.rows[e.key := Advance(s.rows[e.key], e)], s.log + [e]), e.key)
  {
    AppendOwn(s.log, e);
    ChainNext(table, History(s.log, e.key), e);
    AdvanceWellKept(s.rows[e.key], e);
  }

  lemma CreateKeepsConsistency<K(!new)>(table: Table, s: Store<K>, key: K, event: int, at: int)
    requires Consistent(table, s) && Created(s, key, event, at).Ok?
    ensures Consistent(table, Created(s, key, event, at).value)
  {
    var t := Created(s, key, event, at).value;
    var e := t.log[|s.log|];
    EventsStayUnique(s.log, e);
    forall k: K ensures ConsistentAt(table, t, k) {
      assert ConsistentAt(table, s, k);
      if k == key { OwnKeyCreated(table, s, e); } else { OtherKeysKept(table, s, e, FirstRow(), k); }
    }
  }

  lemma MoveKeepsConsistency<K(!new)>(table: Table, s: Store<K>, key: K, m: Move)
    requires Consistent(table, s) && Moved(table, s, key, m).Ok?
    ensures Consistent(table, Moved(table, s, key, m).value)
  {
    if !EventSeen(s.log, m.event) {
      var row := s.rows[key];
      var e := Entry(key, Some(row.status), m.to, m.reason, row.version + 1, m.event, m.at, m.errorId);
      var t := Store(s.rows[key := Advance(row, e)], s.log + [e]);
      assert Moved(table, s, key, m) == Ok(t);
      EventsStayUnique(s.log, e);
      forall k: K ensures ConsistentAt(table, t, k) {
        assert ConsistentAt(table, s, k);
        if k == key { OwnKeyMoved(table, s, e); } else { OtherKeysKept(table, s, e, Advance(row, e), k); }
      }
    }
  }

  /** Asking again with the same event id is answered without any change, even from a newer state. */
  lemma ReplayedEventChangesNothing<K(!new)>(table: Table, s: Store<K>, key: K, m: Move, later: Store<K>)
    requires Moved(table, s, key, m).Ok? && Moved(table, s, key, m).value.log <= later.log && key in later.rows
    ensures Moved(table, later, key, m) == Ok(later)
  {
    var t := Moved(table, s, key, m).value;
    if EventSeen(s.log, m.event) {
      var i :| 0 <= i < |s.log| && s.log[i].event == m.event && s.log[i].key == key && s.log[i].to == m.to;
      assert later.log[i] == t.log[i] == s.log[i];
    } else {
      var i := |s.log|;
      assert later.log[i] == t.log[i];
      assert later.log[i].event == m.event && later.log[i].key == key && later.log[i].to == m.to;
    }
  }

  /** Nothing moves a row out of a terminal status: only a replayed event is still answered. */
  lemma TerminalIsAbsorbing<K(!new)>(table: Table, s: Store<K>, key: K, m: Move)
    requires Consistent(table, s) && key in s.rows && Terminal(s.rows[key].status)
    requires Moved(table, s, key, m).Ok?
    ensures Moved(table, s, key, m).value == s
  {
  }

  /** In a consistent history a terminal status can only be the last one. */
  lemma TerminalOnlyLast<K(!new)>(table: Table, s: Store<K>, key: K, i: nat)
    requires Consistent(table, s) && i + 1 < |History(s.log, key)|
    ensures !Terminal(History(s.log, key)[i].to)
  {
    assert ConsistentAt(table, s, key);
    var h := History(s.log, key);
    assert Allowed(table, h[i + 1 - 1].to, h[i + 1].to);
  }
}

module WorkflowRuns {
  import opened Wrappers
  import opened Sorting
  import opened RunLog

  datatype NodeKey = NodeKey(run: int, node: int, attempt: int)

  /** Attempts of every node are 1, 2, ..., n and all but the last are terminal. */
  ghost predicate AttemptsSequential(rows: map<NodeKey, Row>) {
    && (forall k :: k in rows ==> k.attempt >= 1)
    && (forall k, a :: k in rows && 1 <= a < k.attempt ==> NodeKey(k.run, k.node, a) in rows && Terminal(rows[NodeKey(k.run, k.node, a)].status))
  }

  ghost predicate RunsExist(workflows: map<int, Row>, nodes: map<NodeKey, Row>) {
    forall k :: k in nodes ==> k.run in workflows
  }

  function Attempts(rows: map<NodeKey, Row>, run: int, node: int): set<int> {
    set k | k in rows && k.run == run && k.node == node :: k.attempt
  }

  function Highest(s: set<int>): int
    requires s != {}
  {
    HighestExists(s);
    var m :| m in s && forall x :: x in s ==> x <= m;
    m
  }

  lemma HighestExists(s: set<int>)
    requires s != {}
    ensures exists m :: m in s && forall x :: x in s ==> x <= m
  {
    var m := FindHighest(s);
  }

  lemma FindHighest(s: set<int>) returns (m: int)
    requires s != {}
    ensures m in s && forall x :: x in s ==> x <= m
    decreases |s|
  {
    EmptyOrInhabited(s);
    var y :| y in s;
    m := y;
    if s - {y} != {} {
      var m0 := FindHighest(s - {y});
      m := if m0 < y then y else m0;
    }
    forall x | x in s ensures x <= m {
      assert x == y || x in s - {y};
    }
  }

  /** `create_node`'s check on the latest attempt. */
  function AttemptProblem(rows: map<NodeKey, Row>, key: NodeKey): Option<RunError> {
    if key.attempt < 1 then Some(AttemptNotPositive)
    else
      var attempts := Attempts(rows, key.run, key.node);
      if attempts == {} then if key.attempt != 1 then Some(AttemptNotSequential) else None
      else
        var last := Highest(attempts);
        if key.attempt != last + 1 then Some(AttemptNotSequential)
        else if NodeKey(key.run, key.node, last) in rows && Terminal(rows[NodeKey(key.run, key.node, last)].status) then None
        else Some(AttemptNotSequential)
  }

  /** An attempt number is accepted exactly as the first of its node, or right after an attempt that has ended. */
  lemma AttemptExact(rows: map<NodeKey, Row>, key: NodeKey)
    requires AttemptsSequential(rows)
    ensures AttemptProblem(rows, key).None? <==>
      && key !in rows && key.attempt >= 1
      && (key.attempt > 1 ==> var previous := NodeKey(key.run, key.node, key.attempt - 1); previous in rows && Terminal(rows[previous].status))
  {
    var attempts := Attempts(rows, key.run, key.node);
    assert forall a :: a in attempts <==> NodeKey(key.run, key.node, a) in rows;
    if attempts != {} {
      var last := Highest(attempts);
      assert NodeKey(key.run, key.node, last) in rows;
      assert key.attempt == last + 1 ==> key !in rows;
      if 1 <= key.attempt <= last {
        assert key.attempt < last ==> NodeKey(key.run, key.node, key.attempt) in rows;
        assert key == NodeKey(key.run, key.node, key.attempt);
      }
      assert key.attempt > last + 1 ==> key.attempt - 1 !in attempts;
    } else {
      assert key.attempt in attempts <==> NodeKey(key.run, key.node, key.attempt) in rows;
      assert key.attempt - 1 !in attempts;
    }
  }

  lemma NewAttemptKeepsSequence(rows: map<NodeKey, Row>, key: NodeKey, row: Row)
    requires AttemptsSequential(rows) && key !in rows && AttemptProblem(rows, key).None?
    ensures AttemptsSequential(rows[key := row])
  {
    var attempts := Attempts(rows, key.run, key.node);
    var next := rows[key := row];
    if attempts == {} {
      forall k, a | k in next && 1 <= a < k.attempt
        ensures NodeKey(k.run, k.node, a) in next && Terminal(next[NodeKey(k.run, k.node, a)].status)
      {
        if k != key {
          assert NodeKey(k.run, k.node, a) in rows;
        }
      }
    } else {
      var last := Highest(attempts);
      assert last in attempts;
      var latest := NodeKey(key.run, key.node, last);
      assert latest in rows;
      forall k, a | k in next && 1 <= a < k.attempt
        ensures NodeKey(k.run, k.node, a) in next && Terminal(next[NodeKey(k.run, k.node, a)].status)
      {
        if k == key {
          if a < last { assert NodeKey(latest.run, latest.node, a) in rows; }
        } else {
          assert NodeKey(k.run, k.node, a) in rows;
        }
      }
    }
  }

  lemma MoveKeepsSequence(s: Store<NodeKey>, key: NodeKey, m: Move)
    requires AttemptsSequential(s.rows) && Moved(NodeTable, s, key, m).Ok?
    ensures AttemptsSequential(Moved(NodeTable, s, key, m).value.rows)
  {
  }

  // ---- Outputs: kept in the node's row, but no part of its log.

  const INLINE_LIMIT: nat := 1_048_576

  /** A stored artifact, or the encoded output itself with its length in bytes. */
  datatype Output = Artifact(id: int) | Inline(content: int, size: nat)

  /** What a transition brings along. */
  datatype Attachment = Attachment(artifact: Option<int>, inline: Option<(int, nat)>)

  function OutputProblem(to: Status, a: Attachment): Option<RunError> {
    if (a.artifact.Some? || a.inline.Some?) && to != Succeeded then Some(OutputNotAllowed)
    else if a.artifact.Some? && a.inline.Some? then Some(TwoOutputs)
    else if a.inline.Some? && a.inline.value.1 > INLINE_LIMIT then Some(OutputTooLarge)
    else None
  }

  function Attached(outputs: map<NodeKey, Output>, key: NodeKey, a: Attachment): map<NodeKey, Output> {
    if a.artifact.Some? then outputs[key := Artifact(a.artifact.value)]
    else if a.inline.Some? then outputs[key := Inline(a.inline.value.0, a.inline.value.1)]
    else outputs
  }

  /** Only successful attempts have output, and no inline output is over the limit. */
  ghost predicate OutputsOk(rows: map<NodeKey, Row>, outputs: map<NodeKey, Output>) {
    forall k :: k in outputs ==> k in rows && rows[k].status == Succeeded && (outputs[k].Inline? ==> outputs[k].size <= INLINE_LIMIT)
  }

  lemma MoveKeepsOutputs(s: Store<NodeKey>, outputs: map<NodeKey, Output>, key: NodeKey, m: Move, a: Attachment)
    requires OutputsOk(s.rows, outputs) && Moved(NodeTable, s, key, m).Ok? && !EventSeen(s.log, m.event) && OutputProblem(m.to, a).None?
    ensures OutputsOk(Moved(NodeTable, s, key, m).value.rows, Attached(outputs, key, a))
  {
  }

  class WorkflowRunRepository {
    var workflows: Store<int>
    var nodes: Store<NodeKey>
    var outputs: map<NodeKey, Output>

    ghost predicate Valid()
      reads this
    {
      && Consistent(WorkflowTable, workflows)
      && Consistent(NodeTable, nodes)
      && AttemptsSequential(nodes.rows)
      && RunsExist(workflows.rows, nodes.rows)
      && OutputsOk(nodes.rows, outputs)
    }

    constructor ()
      ensures Valid() && workflows == Store(map[], []) && nodes == Store(map[], []) && outputs == map[]
    {
      workflows, nodes, outputs := Store(map[], []), Store(map[], []), map[];
    }

    method CreateWorkflow(run: int, event: int, at: int, deadline: int) returns (r: Result<Row, RunError>)
      requires Valid()
      modifies this
      ensures Valid() && nodes == old(nodes) && outputs == old(outputs)
      ensures r.Ok? <==> deadline > at && Created(old(workflows), run, event, at).Ok?
      ensures r.Ok? ==> workflows == Created(old(workflows), run, event, at).value && r.value == workflows.rows[run] == FirstRow()
      ensures r.Err? ==> workflows == old(workflows)
    {
      if deadline <= at {
        return Err(InvalidReason);
      }
      if run in workflows.rows || EventSeen(workflows.log, event) {
        return Err(AlreadyExists);
      }
      CreateKeepsConsistency(WorkflowTable, workflows, run, event, at);
      workflows := Store(workflows.rows[run := FirstRow()], workflows.log + [Entry(run, None, Pending, "created", 0, event, at, None)]);
      return Ok(FirstRow());
    }

    /** A new attempt is accepted only after a terminal one, and only for an existing run. */
    method CreateNode(key: NodeKey, event: int, at: int) returns (r: Result<Row, RunError>)
      requires Valid()
      modifies this
      ensures Valid() && workflows == old(workflows)
      ensures outputs == old(outputs)
      ensures r.Ok? <==> AttemptProblem(old(nodes).rows, key).None? && key.run in workflows.rows && Created(old(nodes), key, event, at).Ok?
      ensures r.Ok? ==> nodes == Created(old(nodes), key, event, at).value && r.value == nodes.rows[key] == FirstRow()
      ensures r.Err? ==> nodes == old(nodes)
    {
      var problem := AttemptProblem(nodes.rows, key);
      if problem.Some? {
        return Err(problem.value);
      }
      if key.run !in workflows.rows || key in nodes.rows || EventSeen(nodes.log, event) {
        return Err(AlreadyExists);
      }
      CreateKeepsConsistency(NodeTable, nodes, key, event, at);
      NewAttemptKeepsSequence(nodes.rows, key, FirstRow());
      nodes := Store(nodes.rows[key := FirstRow()], nodes.log + [Entry(key, None, Pending, "created", 0, event, at, None)]);
      return Ok(FirstRow());
    }

    method TransitionWorkflow(run: int, m: Move) returns (r: Result<Row, RunError>)
      requires Valid()
      modifies this
      ensures Valid() && nodes == old(nodes) && outputs == old(outputs)
      ensures r.Ok? <==> Moved(WorkflowTable, old(workflows), run, m).Ok?
      ensures r.Ok? ==> workflows == Moved(WorkflowTable, old(workflows), run, m).value && run in workflows.rows && r.value == workflows.rows[run]
      ensures r.Err? ==> workflows == old(workflows) && Moved(WorkflowTable, old(workflows), run, m) == Err(r.error)
    {
      if run !in workflows.rows {
        return Err(NotFound);
      }
      var current := workflows.rows[run];
      if EventSeen(workflows.log, m.event) {
        if SameMove(workflows.log, run, m) {
          return Ok(current);
        }
        return Err(EventReused);
      }
      if !Allowed(WorkflowTable, current.status, m.to) {
        return Err(InvalidTransition);
      }
      var problem := FieldProblem(m.to, m.reason, m.errorId);
      if problem.Some? {
        return Err(problem.value);
      }
      if current.version != m.expectedVersion {
        return Err(VersionConflict);
      }
      MoveKeepsConsistency(WorkflowTable, workflows, run, m);
      var startedAt := if m.to == Running then Some(m.at) else current.startedAt;
      var finishedAt := if Terminal(m.to) then Some(m.at) else None;
      var updated := Row(m.to, current.version + 1, startedAt, finishedAt, m.errorId);
      workflows := Store(workflows.rows[run := updated],
        workflows.log + [Entry(run, Some(current.status), m.to, m.reason, current.version + 1, m.event, m.at, m.errorId)]);
      return Ok(updated);
    }

    method TransitionNode(key: NodeKey, m: Move, attachment: Attachment) returns (r: Result<Row, RunError>)
      requires Valid()
      modifies this
      ensures Valid() && workflows == old(workflows)
      ensures r.Ok? <==>
        Moved(NodeTable, old(nodes), key, m).Ok? && (EventSeen(old(nodes).log, m.event) || OutputProblem(m.to, attachment).None?)
      ensures r.Ok? ==> nodes == Moved(NodeTable, old(nodes), key, m).value && key in nodes.rows && r.value == nodes.rows[key]
      ensures r.Ok? ==> outputs == if EventSeen(old(nodes).log, m.event) then old(outputs) else Attached(old(outputs), key, attachment)
      ensures r.Err? ==> nodes == old(nodes) && outputs == old(outputs)
      ensures r.Err? ==> var moved := Moved(NodeTable, old(nodes), key, m);
        if moved.Err? then r.error == moved.error else OutputProblem(m.to, attachment) == Some(r.error)
    {
      if key !in nodes.rows {
        return Err(NotFound);
      }
      var current := nodes.rows[key];
      if EventSeen(nodes.log, m.event) {
        if SameMove(nodes.log, key, m) {
          return Ok(current);
        }
        return Err(EventReused);
      }
      if !Allowed(NodeTable, current.status, m.to) {
        return Err(InvalidTransition);
      }
      var problem := FieldProblem(m.to, m.reason, m.errorId);
      if problem.Some? {
        return Err(problem.value);
      }
      if current.version != m.expectedVersion {
        return Err(VersionConflict);
      }
      if attachment.artifact.Some? && m.to != Succeeded {
        return Err(OutputNotAllowed);
      }
      if attachment.inline.Some? && m.to != Succeeded {
        return Err(OutputNotAllowed);
      }
      if attachment.inline.Some? && attachment.artifact.Some? {
        return Err(TwoOutputs);
      }
      if attachment.inline.Some? && attachment.inline.value.1 > INLINE_LIMIT {
        return Err(OutputTooLarge);
      }
      MoveKeepsConsistency(NodeTable, nodes, key, m);
      MoveKeepsSequence(nodes, key, m);
      MoveKeepsOutputs(nodes, outputs, key, m, attachment);
      var startedAt := if m.to == Running then Some(m.at) else current.startedAt;
      var finishedAt := if Terminal(m.to) then Some(m.at) else None;
      var updated := Row(m.to, current.version + 1, startedAt, finishedAt, m.errorId);
      nodes := Store(nodes.rows[key := updated],
        nodes.log + [Entry(key, Some(current.status), m.to, m.reason, current.version + 1, m.event, m.at, m.errorId)]);
      if attachment.artifact.Some? {
        outputs := outputs[key := Artifact(attachment.artifact.value)];
      } else if attachment.inline.Some? {
        outputs := outputs[key := Inline(attachment.inline.value.0, attachment.inline.value.1)];
      }
      return Ok(updated);
    }
  }
}
