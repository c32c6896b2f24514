// active_agent_platform/semantic_memory.py: evidence-backed claims, their contradiction links and promotion.
// Claim values and scopes are opaque and compared as the program compares their canonical form.

module Claims {
  import Sorting

  datatype Status = Candidate | Validated | Expired | Rejected

  datatype Record = Record(claim: int, scope: int, value: int, dataVersion: int, evidence: set<int>, confidence: real,
                           validUntil: int, status: Status, validation: string, contradictedBy: set<int>,
                           createdAt: int, updatedAt: int)

  type Table = map<int, Record>

  predicate Live(r: Record) {
    r.status in {Candidate, Validated}
  }

  /** Two records of the same claim and scope that say different things. */
  predicate Conflict(a: Record, b: Record) {
    a.claim == b.claim && a.scope == b.scope && a.value != b.value
  }

  /** Contradiction links go both ways and lead to stored records. */
  ghost predicate Symmetric(t: Table) {
    forall m, n :: m in t && n in t[m].contradictedBy ==> n in t && m in t[n].contradictedBy
  }

  /** Live records that conflict know about each other. */
  ghost predicate ConflictsLinked(t: Table) {
    forall m, n :: m in t && n in t && Live(t[m]) && Live(t[n]) && Conflict(t[m], t[n]) ==> n in t[m].contradictedBy
  }

  /** No two validated claims contradict each other. */
  ghost predicate NoValidatedConflict(t: Table) {
    forall m, n :: m in t && n in t && t[m].status == Validated && t[n].status == Validated ==> !Conflict(t[m], t[n])
  }

  /** The UNIQUE constraint of the table. */
  ghost predicate UniqueClaims(t: Table) {
    forall m, n :: m in t && n in t && SameClaim(t[m], t[n]) ==> m == n
  }

  predicate SameClaim(a: Record, b: Record) {
    a.claim == b.claim && a.scope == b.scope && a.value == b.value && a.dataVersion == b.dataVersion
  }

  ghost predicate Sound(t: Table) {
    Symmetric(t) && ConflictsLinked(t) && NoValidatedConflict(t) && UniqueClaims(t)
  }

  /** Records stay, what they claim stays, and links only grow. */
  ghost predicate Grows(t: Table, u: Table) {
    forall m :: m in t ==> m in u && KeptClaim(t[m], u[m])
  }

  predicate KeptClaim(a: Record, b: Record) {
    && b.claim == a.claim && b.scope == a.scope && b.value == a.value && b.dataVersion == a.dataVersion && b.evidence == a.evidence
    && b.validUntil == a.validUntil && a.contradictedBy <= b.contradictedBy
    && (!Live(a) ==> b.status == a.status) && (b.status == Candidate ==> a.status == Candidate)
  }

  function ConflictsOf(t: Table, r: Record): set<int> {
    set m | m in t && Live(t[m]) && Conflict(t[m], r)
  }

  /** `add`: the new record and every live record it conflicts with are linked to each other. */
  function Added(t: Table, id: int, r: Record): Table {
    var conflicts := ConflictsOf(t, r);
    Linked(t, conflicts, id, r.createdAt)[id := r.(contradictedBy := r.contradictedBy + conflicts)]
  }

  /** Every record in `conflicts` learns about `id`. */
  function Linked(t: Table, conflicts: set<int>, id: int, at: int): Table {
    map m | m in t :: if m in conflicts then t[m].(contradictedBy := t[m].contradictedBy + {id}, updatedAt := at) else t[m]
  }

  predicate Stored(t: Table, r: Record) {
    exists m :: m in t && SameClaim(t[m], r)
  }

  lemma AddedKeepsSound(t: Table, id: int, r: Record)
    requires Sound(t) && id !in t && r.status == Candidate && r.contradictedBy == {} && !Stored(t, r)
    ensures Sound(Added(t, id, r)) && Grows(t, Added(t, id, r))
  {
    var u, conflicts := Added(t, id, r), ConflictsOf(t, r);
    forall m, n | m in u && n in u[m].contradictedBy ensures n in u && m in u[n].contradictedBy {
      if m != id && n != id {
        assert n in t[m].contradictedBy;
      }
    }
    forall m, n | m in u && n in u && Live(u[m]) && Live(u[n]) && Conflict(u[m], u[n]) ensures n in u[m].contradictedBy {
      if m != id && n != id {
        assert n in t[m].contradictedBy;
      }
    }
    forall m, n | m in u && n in u && u[m].status == Validated && u[n].status == Validated ensures !Conflict(u[m], u[n]) {
      assert m in t && n in t && !Conflict(t[m], t[n]);
    }
    forall m, n | m in u && n in u && SameClaim(u[m], u[n]) ensures m == n {
      if m != id && n != id {
        assert SameClaim(t[m], t[n]);
      }
    }
  }

  function WithStatus(t: Table, id: int, status: Status, validation: string, now: int): Table
    requires id in t
  {
    t[id := t[id].(status := status, validation := validation, updatedAt := now)]
  }

  lemma ExpiringKeepsSound(t: Table, due: set<int>, now: int)
    requires Sound(t) && forall m :: m in due ==> m in t && Live(t[m])
    ensures Sound(ExpiredAll(t, due, now)) && Grows(t, ExpiredAll(t, due, now))
  {
    var u := ExpiredAll(t, due, now);
    forall m, n | m in u && n in u[m].contradictedBy ensures n in u && m in u[n].contradictedBy {
      assert n in t[m].contradictedBy;
    }
    forall m, n | m in u && n in u && Live(u[m]) && Live(u[n]) && Conflict(u[m], u[n]) ensures n in u[m].contradictedBy {
      assert Live(t[m]) && Live(t[n]) && Conflict(t[m], t[n]);
    }
    forall m, n | m in u && n in u && u[m].status == Validated && u[n].status == Validated ensures !Conflict(u[m], u[n]) {
      assert !Conflict(t[m], t[n]);
    }
    forall m, n | m in u && n in u && SameClaim(u[m], u[n]) ensures m == n {
      assert SameClaim(t[m], t[n]);
    }
  }

  function ExpiredAll(t: Table, due: set<int>, now: int): Table {
    map m | m in t :: if m in due then t[m].(status := Expired, updatedAt := now) else t[m]
  }

  lemma NoLiveRival(t: Table, id: int, n: int)
    requires ConflictsLinked(t) && id in t && n in t && Live(t[id]) && Live(t[n]) && t[id].contradictedBy == {}
    ensures !Conflict(t[id], t[n])
  {
  }

  /** Only an uncontradicted candidate may be validated, and that is enough: every live rival would be linked to it. */
  lemma PromotingKeepsSound(t: Table, id: int, validation: string, now: int)
    requires Sound(t) && id in t && t[id].status == Candidate && t[id].contradictedBy == {}
    ensures Sound(WithStatus(t, id, Validated, validation, now)) && Grows(t, WithStatus(t, id, Validated, validation, now))
  {
    var u := WithStatus(t, id, Validated, validation, now);
    forall m, n | m in u && n in u[m].contradictedBy ensures n in u && m in u[n].contradictedBy {
      assert n in t[m].contradictedBy;
    }
    forall m, n | m in u && n in u && Live(u[m]) && Live(u[n]) && Conflict(u[m], u[n]) ensures n in u[m].contradictedBy {
      assert Live(t[m]) && Live(t[n]) && Conflict(t[m], t[n]);
    }
    forall m, n | m in u && n in u && u[m].status == Validated && u[n].status == Validated ensures !Conflict(u[m], u[n]) {
      if m == id {
        NoLiveRival(t, id, n);
      } else if n == id {
        NoLiveRival(t, id, m);
      } else {
        assert !Conflict(t[m], t[n]);
      }
    }
    forall m, n | m in u && n in u && SameClaim(u[m], u[n]) ensures m == n {
      assert SameClaim(t[m], t[n]);
    }
  }

  lemma GrowsTransitive(t: Table, u: Table, v: Table)
    requires Grows(t, u) && Grows(u, v)
    ensures Grows(t, v)
  {
    forall m | m in t ensures m in v && KeptClaim(t[m], v[m]) {
      assert KeptClaim(t[m], u[m]) && KeptClaim(u[m], v[m]);
    }
  }

  /** Once contradicted, a candidate can never be promoted again, even after the rival claim has expired. */
  lemma ContradictionIsForever(t: Table, u: Table, id: int)
    requires Grows(t, u) && id in t && t[id].contradictedBy != {}
    ensures id in u && u[id].contradictedBy != {}
  {
    assert KeptClaim(t[id], u[id]);
    Sorting.EmptyOrInhabited(t[id].contradictedBy);
    var x :| x in t[id].contradictedBy;
    assert x in u[id].contradictedBy;
  }
}

/** Runs of the service: proposals, promotions and expiry in any order. */
module ClaimRuns {
  import opened Claims

  /** `accepted` and `evidenceThere` are what the checks against the clock and the episodes come to. */
  datatype Call =
    | ProposeCall(id: int, record: Record, accepted: bool)
    | PromoteCall(id: int, validation: string, evidenceThere: bool, now: int)
    | ExpireCall(now: int)

  predicate Fresh(r: Record) {
    r.status == Candidate && r.contradictedBy == {}
  }

  function Due(t: Table, now: int): set<int> {
    set m | m in t && Live(t[m]) && t[m].validUntil <= now
  }

  /** The table after one call; refused calls leave it alone. */
  function After(t: Table, call: Call): Table {
    match call
    case ProposeCall(id, record, accepted) =>
      if accepted && id !in t && Fresh(record) && !Stored(t, record) then Added(t, id, record) else t
    case PromoteCall(id, validation, evidenceThere, now) =>
      if validation == "" || id !in t || t[id].status != Candidate then t
      else if t[id].validUntil <= now then ExpiredAll(t, {id}, now)
      else if t[id].contradictedBy != {} || !evidenceThere then t
      else WithStatus(t, id, Validated, validation, now)
    case ExpireCall(now) => ExpiredAll(t, Due(t, now), now)
  }

  function Run(t: Table, calls: seq<Call>): Table {
    if calls == [] then t else After(Run(t, calls[..|calls| - 1]), calls[|calls| - 1])
  }

  lemma SelfGrows(t: Table)
    ensures Grows(t, t)
  {
  }

  lemma AfterKeepsSound(t: Table, call: Call)
    requires Sound(t)
    ensures Sound(After(t, call)) && Grows(t, After(t, call))
  {
    SelfGrows(t);
    match call {
      case ProposeCall(id, record, accepted) =>
        if accepted && id !in t && Fresh(record) && !Stored(t, record) {
          AddedKeepsSound(t, id, record);
        }
      case PromoteCall(id, validation, evidenceThere, now) =>
        if id in t && t[id].status == Candidate {
          ExpiringKeepsSound(t, {id}, now);
          if t[id].contradictedBy == {} {
            PromotingKeepsSound(t, id, validation, now);
          }
        }
      case ExpireCall(now) => ExpiringKeepsSound(t, Due(t, now), now);
    }
  }

  /** In every reachable table links are symmetric, live conflicts are linked, no validated claims contradict each
      other; and over any run records stay, with what they claim, and links never shrink. */
  lemma {:induction false} RunsStaySound(t: Table, calls: seq<Call>)
    requires Sound(t)
    ensures Sound(Run(t, calls)) && Grows(t, Run(t, calls))
  {
    SelfGrows(t);
    if calls != [] {
      var before := Run(t, calls[..|calls| - 1]);
      RunsStaySound(t, calls[..|calls| - 1]);
      AfterKeepsSound(before, calls[|calls| - 1]);
      GrowsTransitive(t, before, Run(t, calls));
    }
  }

  lemma ContradictedNotPromoted(t: Table, call: Call, id: int)
    requires id in t && t[id].contradictedBy != {} && t[id].status != Validated
    ensures id in After(t, call) && After(t, call)[id].status != Validated
  {
  }

  /** A candidate that was contradicted once is never validated, whatever happens to its rivals. */
  lemma {:induction false} ContradictedNeverValidated(t: Table, calls: seq<Call>, id: int)
    requires Sound(t) && id in t && t[id].contradictedBy != {} && t[id].status != Validated
    ensures id in Run(t, calls) && Run(t, calls)[id].contradictedBy != {} && Run(t, calls)[id].status != Validated
  {
    if calls != [] {
      var front, last := calls[..|calls| - 1], calls[|calls| - 1];
      ContradictedNeverValidated(t, front, id);
      RunsStaySound(t, front);
      ContradictedNotPromoted(Run(t, front), last, id);
      AfterKeepsSound(Run(t, front), last);
      ContradictionIsForever(Run(t, front), Run(t, calls), id);
    }
  }
}

module SemanticMemory {
  import opened Wrappers
  import opened Sorting
  import opened Claims
  import opened ClaimRuns

  datatype MemoryError = AlreadyExpired | EvidenceMissing | DuplicateClaim | NotFound | ValidationMethodRequired

  datatype PromotionReason = NotACandidate | HasExpired | Contradicted | CandidateValidated

  datatype Promotion = Promotion(promoted: bool, record: Record, reason: PromotionReason)

  lemma SortedElements(s: set<int>)
    ensures (set m | m in SortSet(s)) == s && Distinct(SortSet(s)) && forall i :: 0 <= i < |SortSet(s)| ==> SortSet(s)[i] in s
  {
    SortSetFacts(s);
    var order := SortSet(s);
    forall i | 0 <= i < |order| ensures order[i] in s {
      assert order[i] in order;
    }
  }

  class SemanticMemoryService {
    var memories: Table
    var episodes: set<int>

    ghost predicate Valid()
      reads this
    {
      Sound(memories)
    }

    constructor (episodes: set<int>)
      ensures Valid() && memories == map[] && this.episodes == episodes
    {
      memories, this.episodes := map[], episodes;
    }

    /** The second half of `add`: one row update per conflicting record. */
    method LinkConflicts(conflicts: seq<int>, id: int, at: int)
      requires Distinct(conflicts) && forall i :: 0 <= i < |conflicts| ==> conflicts[i] in memories
      modifies this`memories
      ensures memories == Linked(old(memories), (set m | m in conflicts), id, at)
    {
      for i := 0 to |conflicts|
        invariant memories == Linked(old(memories), (set m | m in conflicts[..i]), id, at)
      {
        var m := conflicts[i];
        assert conflicts[..i + 1] == conflicts[..i] + [m] && m !in conflicts[..i];
        memories := memories[m := memories[m].(contradictedBy := memories[m].contradictedBy + {id}, updatedAt := at)];
      }
      assert conflicts[..|conflicts|] == conflicts;
    }

    /** `add`: insert the record with its links, then update the rows it conflicts with. */
    method Add(id: int, record: Record) returns (stored: Record)
      requires Valid() && id !in memories && record.status == Candidate && record.contradictedBy == {} && !Stored(memories, record)
      modifies this`memories
      ensures Valid() && Grows(old(memories), memories)
      ensures memories == Added(old(memories), id, record) && stored == memories[id]
    {
      AddedKeepsSound(memories, id, record);
      var conflicts := ConflictsOf(memories, record);
      var order := SortSet(conflicts);
      SortedElements(conflicts);
      LinkConflicts(order, id, record.createdAt);
      stored := record.(contradictedBy := record.contradictedBy + conflicts);
      memories := memories[id := stored];
    }

    /** `propose`: the only way a record enters, under a new id. */
    method Propose(id: int, claim: int, scope: int, value: int, dataVersion: int, evidence: set<int>, confidence: real,
                   validUntil: int, now: int) returns (r: Result<Record, MemoryError>)
      requires Valid() && id !in memories
      modifies this`memories
      ensures Valid() && Grows(old(memories), memories)
      ensures r.Ok? ==> memories == Added(old(memories), id, Proposed(claim, scope, value, dataVersion, evidence, confidence, validUntil, now))
      ensures r.Ok? ==> r.value == memories[id]
      ensures r.Err? ==> memories == old(memories)
      ensures memories == After(old(memories), ProposeCall(id, Proposed(claim, scope, value, dataVersion, evidence, confidence, validUntil, now),
                                                          validUntil > now && evidence <= episodes))
      ensures r.Ok? <==> validUntil > now && evidence <= episodes && !Says(old(memories), claim, scope, value, dataVersion)
      ensures r.Ok? ==> r.value.contradictedBy == Rivals(old(memories), claim, scope, value)
      ensures r.Ok? ==> forall m :: m in old(memories) ==>
        memories[m].contradictedBy == old(memories)[m].contradictedBy + RivalLink(old(memories), m, id, claim, scope, value)
    {
      SelfGrows(memories);
      if validUntil <= now {
        return Err(AlreadyExpired);
      }
      var record := Proposed(claim, scope, value, dataVersion, evidence, confidence, validUntil, now);
      if !(evidence <= episodes) {
        return Err(EvidenceMissing);
      }
      assert Stored(memories, record) <==> Says(memories, claim, scope, value, dataVersion) by {
        assert forall m :: m in memories ==> (SameClaim(memories[m], record) <==>
          memories[m].claim == claim && memories[m].scope == scope && memories[m].value == value && memories[m].dataVersion == dataVersion);
      }
      if Stored(memories, record) {
        return Err(DuplicateClaim);
      }
      RivalsConflict(memories, record);
      var stored := Add(id, record);
      assert record.contradictedBy + Rivals(old(memories), claim, scope, value) == Rivals(old(memories), claim, scope, value);
      return Ok(stored);
    }

    /** Some record says just this, on the same version of the data. */
    static predicate Says(t: Table, claim: int, scope: int, value: int, dataVersion: int) {
      exists m :: m in t && t[m].claim == claim && t[m].scope == scope && t[m].value == value && t[m].dataVersion == dataVersion
    }

    static lemma RivalsConflict(t: Table, record: Record)
      ensures ConflictsOf(t, record) == Rivals(t, record.claim, record.scope, record.value)
    {
      forall m ensures m in ConflictsOf(t, record) <==> m in Rivals(t, record.claim, record.scope, record.value) {
        assert m in ConflictsOf(t, record) <==> m in t && Live(t[m]) && Conflict(t[m], record);
      }
    }

    static function RivalLink(t: Table, m: int, id: int, claim: int, scope: int, value: int): set<int> {
      if m in Rivals(t, claim, scope, value) then {id} else {}
    }

    /** The candidates and validated claims that say something else of the same claim and scope. */
    static function Rivals(t: Table, claim: int, scope: int, value: int): set<int> {
      set m | m in t && (t[m].status == Candidate || t[m].status == Validated)
              && t[m].claim == claim && t[m].scope == scope && t[m].value != value
    }

    static function Proposed(claim: int, scope: int, value: int, dataVersion: int, evidence: set<int>, confidence: real,
                             validUntil: int, now: int): Record
    {
      Record(claim, scope, value, dataVersion, evidence, confidence, validUntil, Candidate, "", {}, now, now)
    }

    /** `promote`: validates exactly the live, uncontradicted candidates whose evidence is still there. */
    method Promote(id: int, validation: string, now: int) returns (r: Result<Promotion, MemoryError>)
      requires Valid()
      modifies this`memories
      ensures Valid() && Grows(old(memories), memories)
      ensures r.Ok? && r.value.promoted <==>
        && validation != "" && id in old(memories) && old(memories)[id].status == Candidate && old(memories)[id].validUntil > now
        && old(memories)[id].contradictedBy == {} && old(memories)[id].evidence <= episodes
      ensures r.Ok? && r.value.promoted ==> memories == WithStatus(old(memories), id, Validated, validation, now)
      ensures r.Ok? && !r.value.promoted ==>
        memories == if r.value.reason.HasExpired? then ExpiredAll(old(memories), {id}, now) else old(memories)
      ensures r.Ok? ==> id in memories && r.value.record == memories[id]
      ensures r.Err? ==> memories == old(memories)
      ensures memories == After(old(memories), PromoteCall(id, validation, id in old(memories) && old(memories)[id].evidence <= episodes, now))
    {
      SelfGrows(memories);
      if validation == "" {
        return Err(ValidationMethodRequired);
      }
      if id !in memories {
        return Err(NotFound);
      }
      var record := memories[id];
      if record.status != Candidate {
        return Ok(Promotion(false, record, NotACandidate));
      }
      if record.validUntil <= now {
        ExpiringKeepsSound(memories, {id}, now);
        memories := ExpiredAll(memories, {id}, now);
        return Ok(Promotion(false, memories[id], HasExpired));
      }
      if record.contradictedBy != {} {
        return Ok(Promotion(false, record, Contradicted));
      }
      if !(record.evidence <= episodes) {
        return Err(EvidenceMissing);
      }
      PromotingKeepsSound(memories, id, validation, now);
      memories := WithStatus(memories, id, Validated, validation, now);
      return Ok(Promotion(true, memories[id], CandidateValidated));
    }

    static function StatusAt(r: Record, now: int): Status {
      if (r.status == Candidate || r.status == Validated) && r.validUntil <= now then Expired else r.status
    }

    /** `expire_due`: the live records past their date, in id order. */
    method ExpireDue(now: int) returns (ids: seq<int>)
      requires Valid()
      modifies this`memories
      ensures Valid() && Grows(old(memories), memories)
      ensures memories == After(old(memories), ExpireCall(now)) == ExpiredAll(old(memories), Due(old(memories), now), now)
      ensures ids == SortSet(Due(old(memories), now)) && Due(memories, now) == {}
      ensures forall m :: m in old(memories) ==> m in memories && memories[m].status == StatusAt(old(memories)[m], now)
      ensures forall m :: m in ids <==> m in old(memories) && old(memories)[m].status != Expired && memories[m].status == Expired
    {
      var due := Due(memories, now);
      ExpiringKeepsSound(memories, due, now);
      ids := SortSet(due);
      SortedElements(due);
      assert forall m :: m in ids <==> m in due;
      memories := ExpiredAll(memories, due, now);
    }

    /** `validated`: what a reader gets never contradicts itself. */
    method ValidatedNow(now: int) returns (ids: set<int>)
      requires Valid()
      ensures ids == set m | m in memories && memories[m].status == Validated && memories[m].validUntil > now
      ensures forall m, n :: m in ids && n in ids && memories[m].claim == memories[n].claim && memories[m].scope == memories[n].scope ==>
        memories[m].value == memories[n].value
    {
      ids := set m | m in memories && memories[m].status == Validated && memories[m].validUntil > now;
    }
  }
}
