// domain_sdk/factor_loop.py: checkpoint rows, fact tables and the pointer file, with a crash window between
// the database commit and the pointer write. Digests are injective, so each is modelled by what it covers.

module LoopProtocol {
  import opened Wrappers

  datatype Status = Running | Paused | Completed | Terminated | RequiresReview

  /** Candidate hashes with their algorithm version, and the factor library. */
  datatype Facts = Facts(candidates: map<int, int>, factors: set<int>)

  datatype StateDigest = StateDigest(iteration: nat, status: Status, failures: int, completed: Option<int>, nextRun: int)

  datatype Checkpoint = Checkpoint(iteration: nat, status: Status, failures: int, completed: Option<int>, nextRun: int,
                                   stateDigest: StateDigest, factsDigest: Option<Facts>)

  /** The `facts_digest` of a pointer: absent or null, a digest, or something else altogether. */
  datatype DigestField = NoDigest | Digest(facts: Facts) | Malformed

  /** A parsed pointer file; other fields of the wrong type are `None`, `ours` covers format, profile and version. */
  datatype Payload = Payload(ours: bool, iteration: Option<int>, stateDigest: Option<StateDigest>,
                             factsDigest: DigestField, search: Option<int>)

  datatype Pointer = Missing | Corrupt | Present(payload: Payload)

  datatype Profile = Profile(interval: int, maxIterations: int, maxFailures: int, hasFile: bool) {
    predicate Valid() { interval > 0 && maxIterations >= 1 && maxFailures >= 1 }
  }

  /** Database, pointer file, and the search state held in memory. */
  datatype State = State(row: Option<Checkpoint>, facts: Facts, pointer: Pointer, search: Option<int>)

  datatype Op =
    | Initialize
    | Iterate(success: bool)
    | Pause
    | Resume
    | Terminate
    | Reconcile
    | CommitIteration(candidates: seq<int>, algorithm: int, factors: seq<int>, ok: bool, newSearch: Option<int>)

  /** Where the process dies, if it does: before a pointer write of `initialize`, or before the operation's own. */
  datatype Crash = NoCrash | InInitialize | AfterCommit

  // ---- Building blocks.

  function NewCheckpoint(iteration: nat, status: Status, failures: int, completed: Option<int>, nextRun: int,
                         factsDigest: Option<Facts>): Checkpoint
  {
    Checkpoint(iteration, status, failures, completed, nextRun,
               StateDigest(iteration, status, failures, completed, nextRun), factsDigest)
  }

  function DigestFieldOf(digest: Option<Facts>): DigestField {
    match digest
    case None => NoDigest
    case Some(facts) => Digest(facts)
  }

  function PayloadOf(c: Checkpoint, search: Option<int>): Payload {
    Payload(true, Some(c.iteration), Some(c.stateDigest), DigestFieldOf(c.factsDigest), search)
  }

  /** `_pointer_problem`, with a corrupt file counted as a problem. */
  predicate PointerProblem(pointer: Pointer, c: Checkpoint) {
    match pointer
    case Missing => false
    case Corrupt => true
    case Present(p) =>
      if !p.ours then true
      else if p.iteration.None? || p.iteration.value < 0 then true
      else if p.iteration.value < c.iteration then false
      else if p.iteration.value != c.iteration then true
      else if p.stateDigest != Some(c.stateDigest) then true
      else p.factsDigest !in {NoDigest, DigestFieldOf(c.factsDigest)}
  }

  /** Commit the row, then publish the pointer unless the process dies first. */
  function Commit(p: Profile, s: State, c: Checkpoint, crash: bool): State {
    var t := s.(row := Some(c));
    if crash || !p.hasFile then t else t.(pointer := Present(PayloadOf(c, s.search)))
  }

  /** `_mark_review`: only the status changes, the state digest stays. */
  function Flag(s: State, c: Checkpoint): State {
    s.(row := Some(c.(status := RequiresReview)))
  }

  function Restore(p: Profile, s: State): State {
    if p.hasFile && s.pointer.Present? && s.pointer.payload.search.Some? then s.(search := s.pointer.payload.search) else s
  }

  predicate FactsChanged(s: State, c: Checkpoint) {
    c.factsDigest.Some? && c.factsDigest != Some(s.facts)
  }

  function Initialized(p: Profile, s: State, now: int, crash: bool): (t: State)
    ensures t.row.Some? && t.facts == s.facts
  {
    match s.row
    case None => Commit(p, s, NewCheckpoint(0, Running, 0, None, now, Some(s.facts)), crash)
    case Some(c) =>
      if FactsChanged(s, c) then Flag(s, c)
      else
        var healed := c.(factsDigest := Some(s.facts));
        var t := Restore(p, s.(row := Some(healed)));
        if p.hasFile && PointerProblem(s.pointer, healed) then Flag(t, healed)
        else Commit(p, t, healed, crash)
  }

  function Iterated(p: Profile, c: Checkpoint, success: bool, now: int): Checkpoint {
    var failures := if success then 0 else c.failures + 1;
    var status :=
      if !success && failures >= p.maxFailures then RequiresReview
      else if success && c.iteration + 1 >= p.maxIterations then Completed
      else Running;
    NewCheckpoint(c.iteration + 1, status, failures, Some(now), now + p.interval, c.factsDigest)
  }

  /** The checkpoint `commit_iteration` stores along with the facts. */
  function Advanced(p: Profile, c: Checkpoint, ok: bool, now: int, facts: Facts): Checkpoint {
    var failures := if ok then 0 else c.failures + 1;
    var status :=
      if failures >= p.maxFailures then RequiresReview
      else if c.iteration + 1 >= p.maxIterations then Completed
      else Running;
    NewCheckpoint(c.iteration + 1, status, failures, Some(now), now + p.interval, Some(facts))
  }

  /** A rewrite at the same iteration. */
  function WithStatus(c: Checkpoint, status: Status, nextRun: int): Checkpoint {
    NewCheckpoint(c.iteration, status, c.failures, c.completed, nextRun, c.factsDigest)
  }

  /** INSERT OR IGNORE: the first row stored under a hash stays. */
  function Inserted(facts: Facts, candidates: seq<int>, algorithm: int, factors: seq<int>): Facts {
    Facts((map h | h in candidates :: algorithm) + facts.candidates, facts.factors + set h | h in factors)
  }

  /** The operation proper, on what `initialize` left. */
  function Acted(p: Profile, t: State, op: Op, now: int, crash: bool): State
    requires t.row.Some?
  {
    var c := t.row.value;
    match op
    case Initialize => t
    case Iterate(success) =>
      if c.status != Running then t
      else if c.iteration >= p.maxIterations then Commit(p, t, WithStatus(c, Completed, c.nextRun), crash)
      else Commit(p, t, Iterated(p, c, success, now), crash)
    case Pause => if c.status == Running then Commit(p, t, WithStatus(c, Paused, c.nextRun), crash) else t
    case Resume => if c.status == Paused then Commit(p, t, WithStatus(c, Running, now), crash) else t
    case Terminate =>
      if c.status in {Running, Paused} then Commit(p, t, WithStatus(c, Terminated, c.nextRun), crash) else t
    case Reconcile =>
      if c.status == RequiresReview then Commit(p, t, c.(status := Running, factsDigest := Some(t.facts)), crash) else t
    case CommitIteration(candidates, algorithm, factors, ok, newSearch) =>
      if c.status != Running then t
      else
        var facts := Inserted(t.facts, candidates, algorithm, factors);
        var u := t.(facts := facts, search := if newSearch.Some? then newSearch else t.search);
        Commit(p, u, Advanced(p, c, ok, now, facts), crash)
  }

  /** One call, possibly cut short; a dead process forgets its search state. */
  function Step(p: Profile, s: State, op: Op, now: int, crash: Crash): (t: State)
    ensures t.row.Some?
  {
    var done :=
      if op.Reconcile? && s.row.Some? then Acted(p, s, op, now, crash != NoCrash)
      else if crash.InInitialize? then Initialized(p, s, now, true)
      else if op.Reconcile? then Initialized(p, s, now, crash != NoCrash)
      else Acted(p, Initialized(p, s, now, false), op, now, crash.AfterCommit?);
    if crash.NoCrash? then done else done.(search := None)
  }

  // ---- What a pointer can be held against.

  /** The pointer is unreadable, somebody else's, claims an iteration the database never committed, or shows another state or
      other facts for the committed iteration. One that lags behind is what a crash leaves and does not count. */
  predicate Objectionable(pointer: Pointer, c: Checkpoint) {
    || pointer.Corrupt?
    || (pointer.Present? && (
         || !pointer.payload.ours
         || pointer.payload.iteration.None? || pointer.payload.iteration.value < 0
         || pointer.payload.iteration.value > c.iteration
         || (pointer.payload.iteration.value == c.iteration && (
              || pointer.payload.stateDigest != Some(c.stateDigest)
              || pointer.payload.factsDigest.Malformed?
              || (pointer.payload.factsDigest.Digest? && c.factsDigest != Some(pointer.payload.factsDigest.facts))))))
  }

  /** With the facts unchanged, the first call flags the row exactly on an objectionable pointer, and no other call than
      `reconcile` gets any further then. */
  lemma PointerChecked(p: Profile, s: State, op: Op, now: int, crash: Crash)
    requires s.row.Some? && s.row.value.factsDigest == Some(s.facts) && p.hasFile && !op.Reconcile?
    ensures Step(p, s, Initialize, now, NoCrash).row
      == Some(if Objectionable(s.pointer, s.row.value) then s.row.value.(status := RequiresReview) else s.row.value)
    ensures Objectionable(s.pointer, s.row.value) ==> Step(p, s, op, now, crash).row == Some(s.row.value.(status := RequiresReview))
  {
    assert PointerProblem(s.pointer, s.row.value) <==> Objectionable(s.pointer, s.row.value);
  }

  // ---- What the steps keep.

  /** The stored facts digest is the digest of the stored facts. */
  predicate DigestCurrent(s: State) {
    s.row.Some? ==> s.row.value.factsDigest == Some(s.facts)
  }

  lemma StepKeepsDigest(p: Profile, s: State, op: Op, now: int, crash: Crash)
    requires DigestCurrent(s)
    ensures DigestCurrent(Step(p, s, op, now, crash))
  {
  }

  /** A checkpoint from before the digest column is completed by the first call, which then does what it would have done
      on the completed one; `initialize` itself changes nothing else in the row unless the pointer raises an objection. */
  lemma LegacyDigestHealed(p: Profile, s: State, op: Op, now: int, crash: Crash)
    requires s.row.Some? && s.row.value.factsDigest.None? && (op.Reconcile? ==> s.row.value.status == RequiresReview)
    ensures DigestCurrent(Step(p, s, op, now, crash))
    ensures var healed := s.row.value.(factsDigest := Some(s.facts));
      !op.Reconcile? ==>
        && Step(p, s, op, now, crash) == Step(p, s.(row := Some(healed)), op, now, crash)
        && (crash.InInitialize? || op.Initialize? ==>
              Step(p, s, op, now, crash).row
                == Some(if p.hasFile && PointerProblem(s.pointer, healed) then healed.(status := RequiresReview) else healed))
  {
    var healed := s.row.value.(factsDigest := Some(s.facts));
    assert healed.(factsDigest := Some(s.facts)) == healed;
  }

  predicate FactsGrow(a: Facts, b: Facts) {
    (forall h :: h in a.candidates ==> h in b.candidates && b.candidates[h] == a.candidates[h]) && a.factors <= b.factors
  }

  /** Neither facts nor the iteration count ever go backwards, whatever happened to the pointer or the facts before. */
  predicate Forward(s: State, t: State) {
    FactsGrow(s.facts, t.facts) && (s.row.Some? ==> t.row.Some? && s.row.value.iteration <= t.row.value.iteration)
  }

  lemma StepMovesForward(p: Profile, s: State, op: Op, now: int, crash: Crash)
    ensures Forward(s, Step(p, s, op, now, crash))
  {
  }

  /** Facts that no longer match their digest are flagged before anything else happens; only the status changes. */
  lemma ChangedFactsFlagged(p: Profile, s: State, op: Op, now: int, crash: Crash)
    requires s.row.Some? && FactsChanged(s, s.row.value) && !op.Reconcile?
    ensures var t := Step(p, s, op, now, crash);
      t.row == Some(s.row.value.(status := RequiresReview)) && t.facts == s.facts && t.pointer == s.pointer
  {
  }

  /** A review is left only through `reconcile`, and nothing progresses meanwhile. */
  lemma ReviewHoldsUntilReconcile(p: Profile, s: State, op: Op, now: int, crash: Crash)
    requires s.row.Some? && s.row.value.status == RequiresReview && !op.Reconcile?
    ensures var t := Step(p, s, op, now, crash);
      t.row.value.status == RequiresReview && t.facts == s.facts && t.row.value.iteration == s.row.value.iteration
  {
  }

  /** `reconcile` takes the stored facts as they are, and acts only on a review. */
  lemma ReconcileAcceptsFacts(p: Profile, s: State, now: int, crash: Crash)
    requires s.row.Some?
    ensures var t := Step(p, s, Reconcile, now, crash);
      t.facts == s.facts &&
      (s.row.value.status == RequiresReview ==> t.row.value.status == Running && DigestCurrent(t)) &&
      (s.row.value.status != RequiresReview ==> t.row == s.row && t.pointer == s.pointer)
  {
  }

  /** Finished loops stay finished, unless a check puts them under review. */
  lemma FinishedStaysFinished(p: Profile, s: State, op: Op, now: int, crash: Crash)
    requires s.row.Some? && s.row.value.status in {Completed, Terminated}
    ensures Step(p, s, op, now, crash).row.value.status in {s.row.value.status, RequiresReview}
    ensures Step(p, s, op, now, crash).facts == s.facts
  {
  }
}

/** Properties of whole runs: calls, crashes, restarts and outside tampering in any order. */
module LoopRuns {
  import opened Wrappers
  import opened LoopProtocol

  datatype Event =
    | Call(op: Op, now: int, crash: Crash)
    | Reopened
    | PointerTampered(pointer: Pointer)
    | FactsTampered(facts: Facts)

  function After(p: Profile, s: State, e: Event): State {
    match e
    case Call(op, now, crash) => Step(p, s, op, now, crash)
    case Reopened => s.(search := None)
    case PointerTampered(pointer) => s.(pointer := pointer)
    case FactsTampered(facts) => s.(facts := facts)
  }

  function Run(p: Profile, s: State, events: seq<Event>): State
    decreases |events|
  {
    if events == [] then s else After(p, Run(p, s, events[..|events| - 1]), events[|events| - 1])
  }

  ghost predicate FactsUntouched(events: seq<Event>) {
    forall e :: e in events ==> !e.FactsTampered?
  }

  ghost predicate NoReconcile(events: seq<Event>) {
    forall e :: e in events ==> !(e.Call? && e.op.Reconcile?)
  }

  /** Without tampering with the facts, their stored digest is theirs after every run, crashes included. */
  lemma {:induction false} RunKeepsDigest(p: Profile, s: State, events: seq<Event>)
    requires DigestCurrent(s) && FactsUntouched(events)
    ensures DigestCurrent(Run(p, s, events))
    decreases |events|
  {
    if events != [] {
      var earlier, e := events[..|events| - 1], events[|events| - 1];
      RunKeepsDigest(p, s, earlier);
      if e.Call? {
        StepKeepsDigest(p, Run(p, s, earlier), e.op, e.now, e.crash);
      }
    }
  }

  lemma {:induction false} RunMovesForward(p: Profile, s: State, events: seq<Event>)
    requires FactsUntouched(events)
    ensures Forward(s, Run(p, s, events))
    decreases |events|
  {
    if events != [] {
      var earlier, e := events[..|events| - 1], events[|events| - 1];
      RunMovesForward(p, s, earlier);
      if e.Call? {
        StepMovesForward(p, Run(p, s, earlier), e.op, e.now, e.crash);
      }
    }
  }

  predicate UnderReviewAt(s: State, iteration: nat) {
    s.row.Some? && s.row.value.status == RequiresReview && s.row.value.iteration == iteration
  }

  /** Only `reconcile` ends a review, however long the run and whatever is done to the files. */
  lemma {:induction false} RunStaysInReview(p: Profile, s: State, events: seq<Event>)
    requires s.row.Some? && UnderReviewAt(s, s.row.value.iteration) && NoReconcile(events)
    ensures UnderReviewAt(Run(p, s, events), s.row.value.iteration)
    ensures FactsUntouched(events) ==> Run(p, s, events).facts == s.facts
    decreases |events|
  {
    if events != [] {
      var earlier, e := events[..|events| - 1], events[|events| - 1];
      RunStaysInReview(p, s, earlier);
      if e.Call? {
        ReviewHoldsUntilReconcile(p, Run(p, s, earlier), e.op, e.now, e.crash);
      }
    }
  }

  ghost predicate SomeCall(events: seq<Event>) {
    exists e :: e in events && e.Call?
  }

  /** Facts changed behind the loop's back stop it: the first call flags them and no later one makes progress. */
  lemma {:induction false} ChangedFactsStopTheLoop(p: Profile, s: State, events: seq<Event>)
    requires s.row.Some? && FactsChanged(s, s.row.value) && FactsUntouched(events) && NoReconcile(events)
    ensures var t := Run(p, s, events);
      t.facts == s.facts && t.row.Some? && t.row.value.iteration == s.row.value.iteration &&
      (if SomeCall(events) then t.row.value.status == RequiresReview else t.row == s.row)
    decreases |events|
  {
    if events != [] {
      var earlier, e := events[..|events| - 1], events[|events| - 1];
      assert events == earlier + [e];
      ChangedFactsStopTheLoop(p, s, earlier);
      var m := Run(p, s, earlier);
      if e.Call? {
        assert e in events;
        if SomeCall(earlier) {
          ReviewHoldsUntilReconcile(p, m, e.op, e.now, e.crash);
        } else {
          ChangedFactsFlagged(p, m, e.op, e.now, e.crash);
        }
      } else if SomeCall(events) {
        assert SomeCall(earlier);
      }
    }
  }

  // ---- The crash window.

  /** Nothing an `initialize` would object to. */
  predicate Trusted(p: Profile, s: State) {
    && DigestCurrent(s)
    && (p.hasFile ==> if s.row.Some? then !PointerProblem(s.pointer, s.row.value) else s.pointer.Missing?)
  }

  /** The pointer was written for exactly the stored checkpoint. */
  predicate Synced(p: Profile, s: State) {
    && DigestCurrent(s) && p.hasFile && s.row.Some?
    && s.pointer.Present? && s.pointer.payload == PayloadOf(s.row.value, s.pointer.payload.search)
  }

  /** The call commits a checkpoint of the next iteration. */
  predicate Advances(p: Profile, s: State, op: Op) {
    && s.row.Some? && s.row.value.status == Running
    && (op.CommitIteration? || (op.Iterate? && s.row.value.iteration < p.maxIterations))
  }

  /** `initialize` leaves a checkpoint it trusts as it is. */
  lemma TrustedRowStays(p: Profile, s: State, now: int)
    requires Trusted(p, s) && s.row.Some?
    ensures Step(p, s, Initialize, now, NoCrash).row == s.row
    ensures p.hasFile ==> Synced(p, Step(p, s, Initialize, now, NoCrash))
  {
    var c := s.row.value;
    assert c.(factsDigest := Some(s.facts)) == c;
  }

  /** A crash between the two writes of an advancing step costs nothing: the next call finds the committed
      checkpoint, status unchanged, and rewrites the pointer. */
  lemma AdvancingCrashHealed(p: Profile, s: State, op: Op, now: int, later: int)
    requires Trusted(p, s) && Advances(p, s, op)
    ensures var t := Step(p, s, op, now, AfterCommit); var u := Step(p, t, Initialize, later, NoCrash);
      t.row.value.iteration == s.row.value.iteration + 1 && u.row == t.row && u.facts == t.facts &&
      (p.hasFile ==> Synced(p, u))
  {
    var t := Step(p, s, op, now, AfterCommit);
    StepKeepsDigest(p, s, op, now, AfterCommit);
    TrustedRowStays(p, t, later);
  }

  /** Exactly when a crash after the commit goes unnoticed: the iteration moved, or neither digest changed. */
  lemma CrashWindowExact(p: Profile, s: State, op: Op, now: int, later: int)
    requires Synced(p, s)
    ensures var t := Step(p, s, op, now, AfterCommit); var u := Step(p, t, Initialize, later, NoCrash);
      var healed :=
        || t.row.value.iteration > s.row.value.iteration
        || (t.row.value.stateDigest == s.row.value.stateDigest && t.row.value.factsDigest == s.row.value.factsDigest);
      u.row == if healed then t.row else Some(t.row.value.(status := RequiresReview))
  {
    StepKeepsDigest(p, s, op, now, AfterCommit);
    StepMovesForward(p, s, op, now, AfterCommit);
  }

  /** The call rewrites the checkpoint without advancing it. */
  predicate Rewrites(p: Profile, c: Checkpoint, op: Op) {
    match op
    case Pause => c.status == Running
    case Resume => c.status == Paused
    case Terminate => c.status in {Running, Paused}
    case Iterate(_) => c.status == Running && c.iteration >= p.maxIterations
    case _ => false
  }

  predicate FreshDigest(c: Checkpoint) {
    c.stateDigest == StateDigest(c.iteration, c.status, c.failures, c.completed, c.nextRun)
  }

  /** pause, resume, terminate and completion are not healed but reviewed when their pointer write is lost. */
  lemma RewriteCrashReviewed(p: Profile, s: State, op: Op, now: int, later: int)
    requires Synced(p, s) && FreshDigest(s.row.value)
    ensures var t := Step(p, s, op, now, AfterCommit); var u := Step(p, t, Initialize, later, NoCrash);
      u.row != t.row <==> Rewrites(p, s.row.value, op)
  {
    CrashWindowExact(p, s, op, now, later);
    StepMovesForward(p, s, op, now, AfterCommit);
  }

  /** The state digest a rewrite commits. */
  function RewriteDigest(c: Checkpoint, op: Op, now: int): StateDigest {
    match op
    case Pause => StateDigest(c.iteration, Paused, c.failures, c.completed, c.nextRun)
    case Resume => StateDigest(c.iteration, Running, c.failures, c.completed, now)
    case Terminate => StateDigest(c.iteration, Terminated, c.failures, c.completed, c.nextRun)
    case _ => StateDigest(c.iteration, Completed, c.failures, c.completed, c.nextRun)
  }

  /** Told before the call, for every synchronised state: a crash is flagged exactly in a rewrite whose state digest
      differs from the stored one. */
  lemma CrashFlaggedExactly(p: Profile, s: State, op: Op, now: int, later: int)
    requires Synced(p, s)
    ensures var t := Step(p, s, op, now, AfterCommit); var u := Step(p, t, Initialize, later, NoCrash);
      u.row != t.row <==> Rewrites(p, s.row.value, op) && RewriteDigest(s.row.value, op, now) != s.row.value.stateDigest
  {
    CrashWindowExact(p, s, op, now, later);
    StepMovesForward(p, s, op, now, AfterCommit);
  }

  /** A new loop, paused, its pointer damaged, flagged and reconciled. */
  function ReconciledPause(start: int, t1: int, t2: int, t3: int): seq<Event> {
    [Call(Initialize, start, NoCrash), Call(Pause, t1, NoCrash), PointerTampered(Corrupt), Call(Initialize, t2, NoCrash),
     Call(Reconcile, t3, NoCrash)]
  }

  lemma RunLast(p: Profile, s: State, events: seq<Event>, e: Event)
    ensures Run(p, s, events + [e]) == After(p, Run(p, s, events), e)
  {
    assert (events + [e])[..|events|] == events;
  }

  lemma RunReconciledPause(p: Profile, facts: Facts, start: int, t1: int, t2: int, t3: int)
    requires p.hasFile
    ensures var c := Checkpoint(0, Running, 0, None, start, StateDigest(0, Paused, 0, None, start), Some(facts));
      Run(p, State(None, facts, Missing, None), ReconciledPause(start, t1, t2, t3))
        == State(Some(c), facts, Present(PayloadOf(c, None)), None)
  {
    var s := State(None, facts, Missing, None);
    var all := ReconciledPause(start, t1, t2, t3);
    forall i | 0 <= i < 5 ensures Run(p, s, all[..i + 1]) == After(p, Run(p, s, all[..i]), all[i]) {
      assert all[..i + 1] == all[..i] + [all[i]];
      RunLast(p, s, all[..i], all[i]);
    }
    assert Run(p, s, all[..0 + 1]) == After(p, s, all[0]);
    assert Run(p, s, all[..1 + 1]) == After(p, Run(p, s, all[..1]), all[1]);
    assert Run(p, s, all[..2 + 1]) == After(p, Run(p, s, all[..2]), all[2]);
    assert Run(p, s, all[..3 + 1]) == After(p, Run(p, s, all[..3]), all[3]);
    assert Run(p, s, all[..4 + 1]) == After(p, Run(p, s, all[..4]), all[4]);
    assert all[..5] == all;
  }

  /** `reconcile` keeps the old state digest, so after such a run the next pause reproduces it and its crash is missed. */
  lemma StaleDigestHidesCrash(p: Profile, facts: Facts, start: int, t1: int, t2: int, t3: int, now: int, later: int)
    requires p.hasFile
    ensures var s := Run(p, State(None, facts, Missing, None), ReconciledPause(start, t1, t2, t3));
      var t := Step(p, s, Pause, now, AfterCommit);
      && Synced(p, s) && Rewrites(p, s.row.value, Pause) && t.row.value.status == Paused
      && Step(p, t, Initialize, later, NoCrash).row == t.row
  {
    RunReconciledPause(p, facts, start, t1, t2, t3);
  }

  /** Crashes are allowed where healing is promised: inside `initialize` and in advancing steps. */
  ghost predicate GentleEvent(p: Profile, s: State, e: Event) {
    e.Reopened? || (e.Call? && (e.crash.AfterCommit? ==> Advances(p, s, e.op)))
  }

  ghost predicate Gentle(p: Profile, s: State, events: seq<Event>)
    decreases |events|
  {
    events == [] ||
      (Gentle(p, s, events[..|events| - 1]) && GentleEvent(p, Run(p, s, events[..|events| - 1]), events[|events| - 1]))
  }

  lemma GentleStepTrusted(p: Profile, s: State, e: Event)
    requires Trusted(p, s) && GentleEvent(p, s, e)
    ensures Trusted(p, After(p, s, e))
  {
  }

  /** No false alarms: such runs never give `initialize` a reason to ask for a review. */
  lemma {:induction false} GentleRunsStayTrusted(p: Profile, s: State, events: seq<Event>, now: int)
    requires Trusted(p, s) && Gentle(p, s, events)
    ensures var t := Run(p, s, events);
      Trusted(p, t) && (t.row.Some? ==> Step(p, t, Initialize, now, NoCrash).row == t.row)
    decreases |events|
  {
    if events != [] {
      GentleRunsStayTrusted(p, s, events[..|events| - 1], now);
      GentleStepTrusted(p, Run(p, s, events[..|events| - 1]), events[|events| - 1]);
    }
    if Run(p, s, events).row.Some? {
      TrustedRowStays(p, Run(p, s, events), now);
    }
  }

  /** A committed search snapshot comes back after a restart; after a crash the previous snapshot does. */
  lemma SearchStateSurvives(p: Profile, s: State, op: Op, now: int, later: int)
    requires p.hasFile && Trusted(p, s) && Advances(p, s, op) && op.CommitIteration? && op.newSearch.Some?
    ensures Step(p, After(p, Step(p, s, op, now, NoCrash), Reopened), Initialize, later, NoCrash).search == op.newSearch
    ensures s.pointer.Present? && s.pointer.payload.search.Some? ==>
      Step(p, Step(p, s, op, now, AfterCommit), Initialize, later, NoCrash).search == s.pointer.payload.search
  {
    TrustedRowStays(p, s, now);
    GentleStepTrusted(p, s, Call(op, now, NoCrash));
    GentleStepTrusted(p, s, Call(op, now, AfterCommit));
  }

  ghost predicate NoCommitIteration(events: seq<Event>) {
    forall e :: e in events ==> !(e.Call? && e.op.CommitIteration?)
  }

  /** `iterate` alone never passes the profile's iteration bound. */
  lemma {:induction false} IterationsBounded(p: Profile, s: State, events: seq<Event>)
    requires p.Valid() && NoCommitIteration(events) && (s.row.Some? ==> s.row.value.iteration <= p.maxIterations)
    ensures var t := Run(p, s, events); t.row.Some? ==> t.row.value.iteration <= p.maxIterations
    decreases |events|
  {
    if events != [] {
      IterationsBounded(p, s, events[..|events| - 1]);
    }
  }
}

module FactorLoop {
  import opened Wrappers
  import opened LoopProtocol

  class FactorDiscoveryLoop {
    const profile: Profile
    var row: Option<Checkpoint>
    var facts: Facts
    var pointer: Pointer
    var searchState: Option<int>

    ghost function Now(): State
      reads this
    {
      State(row, facts, pointer, searchState)
    }

    /** A new process over an existing database and pointer file. */
    constructor (profile: Profile, row: Option<Checkpoint>, facts: Facts, pointer: Pointer)
      requires profile.Valid()
      ensures this.profile == profile && Now() == State(row, facts, pointer, None)
    {
      this.profile, this.row, this.facts, this.pointer, searchState := profile, row, facts, pointer, None;
    }

    method WritePointer(c: Checkpoint)
      modifies this`pointer
      ensures Now() == if profile.hasFile then old(Now()).(pointer := Present(PayloadOf(c, searchState))) else old(Now())
    {
      if profile.hasFile {
        pointer := Present(PayloadOf(c, searchState));
      }
    }

    method CommitCheckpoint(c: Checkpoint, crash: bool)
      modifies this`row, this`pointer
      ensures Now() == Commit(profile, old(Now()), c, crash)
    {
      row := Some(c);
      if !crash {
        WritePointer(c);
      }
    }

    method MarkReview(c: Checkpoint)
      modifies this`row
      ensures Now() == Flag(old(Now()), c)
    {
      row := Some(c.(status := RequiresReview));
    }

    method LoadSearchState()
      modifies this`searchState
      ensures Now() == Restore(profile, old(Now()))
    {
      if profile.hasFile && pointer.Present? && pointer.payload.search.Some? {
        searchState := pointer.payload.search;
      }
    }

    method Initialize(now: int, crash: bool) returns (c: Checkpoint)
      modifies this
      ensures Now() == Initialized(profile, old(Now()), now, crash) && row == Some(c)
    {
      if row.None? {
        c := NewCheckpoint(0, Running, 0, None, now, Some(facts));
        CommitCheckpoint(c, crash);
        return;
      }
      c := row.value;
      if c.factsDigest.None? {
        c := c.(factsDigest := Some(facts));
        row := Some(c);
      } else if c.factsDigest.value != facts {
        MarkReview(c);
        return row.value;
      }
      assert c == old(row).value.(factsDigest := Some(facts));
      LoadSearchState();
      if profile.hasFile && PointerProblem(pointer, c) {
        MarkReview(c);
        return row.value;
      }
      CommitCheckpoint(c, crash);
    }

    /** A dead process answers nothing and forgets its search state. */
    method Die()
      modifies this`searchState
      ensures Now() == old(Now()).(search := None)
    {
      searchState := None;
    }

    method CommitOrDie(c: Checkpoint, crash: Crash) returns (r: Option<Checkpoint>)
      modifies this`row, this`pointer, this`searchState
      ensures Now() == if crash.NoCrash? then Commit(profile, old(Now()), c, false) else Commit(profile, old(Now()), c, true).(search := None)
      ensures r == if crash.NoCrash? then Some(c) else None
    {
      CommitCheckpoint(c, !crash.NoCrash?);
      if crash.NoCrash? {
        return Some(c);
      }
      Die();
      return None;
    }

    method Stay(c: Checkpoint, crash: Crash) returns (r: Option<Checkpoint>)
      modifies this`searchState
      ensures Now() == if crash.NoCrash? then old(Now()) else old(Now()).(search := None)
      ensures r == if crash.NoCrash? then Some(c) else None
    {
      if crash.NoCrash? {
        return Some(c);
      }
      Die();
      return None;
    }

    method Iterate(success: bool, now: int, crash: Crash) returns (r: Option<Checkpoint>)
      modifies this
      ensures Now() == Step(profile, old(Now()), LoopProtocol.Iterate(success), now, crash)
      ensures r == if crash.NoCrash? then row else None
    {
      var current := Initialize(now, crash.InInitialize?);
      if crash.InInitialize? || current.status != Running {
        r := Stay(current, crash);
        return;
      }
      if current.iteration >= profile.maxIterations {
        r := CommitOrDie(WithStatus(current, Completed, current.nextRun), crash);
        return;
      }
      var failures := if success then 0 else current.failures + 1;
      var status := Running;
      if !success && failures >= profile.maxFailures {
        status := RequiresReview;
      }
      var iteration := current.iteration + 1;
      if success && iteration >= profile.maxIterations {
        status := Completed;
      }
      r := CommitOrDie(NewCheckpoint(iteration, status, failures, Some(now), now + profile.interval, current.factsDigest), crash);
    }

    method Pause(now: int, crash: Crash) returns (r: Option<Checkpoint>)
      modifies this
      ensures Now() == Step(profile, old(Now()), LoopProtocol.Pause, now, crash)
      ensures r == if crash.NoCrash? then row else None
    {
      var current := Initialize(now, crash.InInitialize?);
      if !crash.InInitialize? && current.status == Running {
        r := CommitOrDie(WithStatus(current, Paused, current.nextRun), crash);
      } else {
        r := Stay(current, crash);
      }
    }

    method Resume(now: int, crash: Crash) returns (r: Option<Checkpoint>)
      modifies this
      ensures Now() == Step(profile, old(Now()), LoopProtocol.Resume, now, crash)
      ensures r == if crash.NoCrash? then row else None
    {
      var current := Initialize(now, crash.InInitialize?);
      if !crash.InInitialize? && current.status == Paused {
        r := CommitOrDie(WithStatus(current, Running, now), crash);
      } else {
        r := Stay(current, crash);
      }
    }

    method Terminate(now: int, crash: Crash) returns (r: Option<Checkpoint>)
      modifies this
      ensures Now() == Step(profile, old(Now()), LoopProtocol.Terminate, now, crash)
      ensures r == if crash.NoCrash? then row else None
    {
      var current := Initialize(now, crash.InInitialize?);
      if !crash.InInitialize? && current.status in {Running, Paused} {
        r := CommitOrDie(WithStatus(current, Terminated, current.nextRun), crash);
      } else {
        r := Stay(current, crash);
      }
    }

    method Reconcile(now: int, crash: Crash) returns (r: Option<Checkpoint>)
      modifies this
      ensures Now() == Step(profile, old(Now()), LoopProtocol.Reconcile, now, crash)
      ensures r == if crash.NoCrash? then row else None
    {
      if row.None? {
        var first := Initialize(now, !crash.NoCrash?);
        r := Stay(first, crash);
        return;
      }
      var current := row.value;
      if current.status != RequiresReview {
        r := Stay(current, crash);
        return;
      }
      r := CommitOrDie(current.(status := Running, factsDigest := Some(facts)), crash);
    }

    /** INSERT OR IGNORE, row by row. */
    method InsertFacts(candidates: seq<int>, algorithm: int, factors: seq<int>)
      modifies this`facts
      ensures facts == Inserted(old(facts), candidates, algorithm, factors)
    {
      var table := facts.candidates;
      for i := 0 to |candidates|
        invariant table == (map h | h in candidates[..i] :: algorithm) + facts.candidates
      {
        assert candidates[..i + 1] == candidates[..i] + [candidates[i]];
        if candidates[i] !in table {
          table := table[candidates[i] := algorithm];
        }
      }
      assert candidates[..|candidates|] == candidates;
      facts := Facts(table, facts.factors + set h | h in factors);
    }

    method CommitIteration(candidates: seq<int>, factors: seq<int>, algorithm: int, success: bool, search: Option<int>,
                           now: int, crash: Crash) returns (r: Option<Checkpoint>)
      modifies this
      ensures Now() == Step(profile, old(Now()), LoopProtocol.CommitIteration(candidates, algorithm, factors, success, search), now, crash)
      ensures r == if crash.NoCrash? then row else None
    {
      var current := Initialize(now, crash.InInitialize?);
      if crash.InInitialize? || current.status != Running {
        r := Stay(current, crash);
        return;
      }
      if search.Some? {
        searchState := search;
      }
      InsertFacts(candidates, algorithm, factors);
      var failures := if success then 0 else current.failures + 1;
      var status := if failures >= profile.maxFailures then RequiresReview else Running;
      var iteration := current.iteration + 1;
      if iteration >= profile.maxIterations && status == Running {
        status := Completed;
      }
      r := CommitOrDie(NewCheckpoint(iteration, status, failures, Some(now), now + profile.interval, Some(facts)), crash);
    }
  }
}
