// domain_sdk/dna_repository.py: definition rows under compare-and-swap, an append-only transition log, and
// the lineage check. A raised error rolls its transaction back. Documents and digests are opaque values.

/** Parent links and the worklist walk of `_assert_acyclic`. */
module DnaLineage {

  datatype Key = Key(dna: int, version: int)

  type Parents = map<Key, seq<Key>>

  const MAX_DEPTH := 32
  const MAX_PARENTS := 4

  function ParentsOf(parents: Parents, k: Key): seq<Key> {
    if k in parents then parents[k] else []
  }

  /** A line of ancestors: each element is followed by one of its parents. */
  ghost predicate Chain(parents: Parents, w: seq<Key>) {
    |w| > 0 && forall i :: 0 <= i < |w| - 1 ==> w[i + 1] in ParentsOf(parents, w[i])
  }

  ghost predicate ChainFrom(parents: Parents, start: Key, w: seq<Key>) {
    Chain(parents, w) && w[0] == start
  }

  ghost predicate Harmless(limit: nat, child: Key, w: seq<Key>) {
    |w| <= limit && child !in w
  }

  /** No line of ancestors of `start` is too long or leads to `child`. */
  ghost predicate LineageOk(limit: nat, parents: Parents, child: Key, start: Key) {
    forall w :: ChainFrom(parents, start, w) ==> Harmless(limit, child, w)
  }

  ghost predicate Bounded(parents: Parents) {
    forall k :: k in parents ==> |parents[k]| <= MAX_PARENTS
  }

  datatype Item = Item(identity: Key, depth: nat, ancestors: seq<Key>)

  function Trace(i: Item): seq<Key> { i.ancestors + [i.identity] }

  ghost predicate ItemOk(limit: nat, parents: Parents, child: Key, start: Key, i: Item) {
    && ChainFrom(parents, start, Trace(i))
    && i.depth == |i.ancestors| <= limit
    && child !in i.ancestors
  }

  ghost predicate Reaches(pending: seq<Item>, w: seq<Key>) {
    exists j :: 0 <= j < |pending| && Trace(pending[j]) <= w
  }

  ghost predicate Covered(limit: nat, pending: seq<Item>, child: Key, w: seq<Key>) {
    Harmless(limit, child, w) || Reaches(pending, w)
  }

  ghost predicate Frontier(limit: nat, parents: Parents, child: Key, start: Key, pending: seq<Item>) {
    && (forall j :: 0 <= j < |pending| ==> ItemOk(limit, parents, child, start, pending[j]))
    && (forall w :: ChainFrom(parents, start, w) ==> Covered(limit, pending, child, w))
  }

  /** Work left for one item, if every ancestor had the maximum number of parents. */
  function Weight(limit: nat, depth: nat): (w: nat)
    ensures w >= 1
    decreases limit - depth
  {
    if depth >= limit then 1 else 1 + Repeat(MAX_PARENTS, Weight(limit, depth + 1))
  }

  function Repeat(n: nat, w: nat): nat {
    if n == 0 then 0 else Repeat(n - 1, w) + w
  }

  function TotalWeight(limit: nat, pending: seq<Item>): nat {
    if pending == [] then 0 else TotalWeight(limit, pending[..|pending| - 1]) + Weight(limit, pending[|pending| - 1].depth)
  }

  function Successors(i: Item, rows: seq<Key>): (r: seq<Item>)
    ensures |r| == |rows|
    ensures forall j :: 0 <= j < |r| ==> r[j] == Item(rows[j], i.depth + 1, Trace(i))
  {
    seq(|rows|, j requires 0 <= j < |rows| => Item(rows[j], i.depth + 1, Trace(i)))
  }

  lemma {:induction false} WeightAppend(limit: nat, a: seq<Item>, b: seq<Item>, depth: nat)
    requires forall j :: 0 <= j < |b| ==> b[j].depth == depth
    ensures TotalWeight(limit, a + b) == TotalWeight(limit, a) + Repeat(|b|, Weight(limit, depth))
    decreases |b|
  {
    if b == [] {
      assert a + b == a;
    } else {
      var last := |b| - 1;
      WeightAppend(limit, a, b[..last], depth);
      assert (a + b)[..|a + b| - 1] == a + b[..last];
      assert (a + b)[|a + b| - 1] == b[last];
    }
  }

  lemma {:induction false} RepeatMonotone(n: nat, m: nat, w: nat)
    requires n <= m
    ensures Repeat(n, w) <= Repeat(m, w)
    decreases m
  {
    if n < m {
      RepeatMonotone(n, m - 1, w);
    }
  }

  lemma TurnShrinks(limit: nat, rest: seq<Item>, i: Item, rows: seq<Key>)
    requires i.depth < limit && |rows| <= MAX_PARENTS
    ensures TotalWeight(limit, rest + Successors(i, rows)) < TotalWeight(limit, rest + [i])
  {
    WeightAppend(limit, rest, Successors(i, rows), i.depth + 1);
    RepeatMonotone(|rows|, MAX_PARENTS, Weight(limit, i.depth + 1));
    assert (rest + [i])[..|rest + [i]| - 1] == rest;
  }

  /** A repeated ancestor can be walked round and round, so some line is longer than any bound. */
  lemma {:induction false} Pump(parents: Parents, start: Key, w: seq<Key>, i: nat, length: nat) returns (v: seq<Key>)
    requires ChainFrom(parents, start, w) && i < |w| - 1 && w[i] == w[|w| - 1]
    ensures ChainFrom(parents, start, v) && |v| >= length
    decreases length - |w|
  {
    if |w| >= length {
      v := w;
    } else {
      var longer := w + w[i + 1..];
      forall k | 0 <= k < |longer| - 1 ensures longer[k + 1] in ParentsOf(parents, longer[k]) {
        if k >= |w| - 1 {
          var m := i + (k - (|w| - 1));
          assert w[m + 1] in ParentsOf(parents, w[m]);
          assert longer[k] == w[m] && longer[k + 1] == w[m + 1];
        } else {
          assert longer[k] == w[k] && longer[k + 1] == w[k + 1];
        }
      }
      v := Pump(parents, start, longer, i, length);
    }
  }

  lemma RepeatIsHarmful(limit: nat, parents: Parents, child: Key, start: Key, i: Item)
    requires ItemOk(limit, parents, child, start, i) && i.identity in i.ancestors
    ensures !LineageOk(limit, parents, child, start)
  {
    var k :| 0 <= k < |i.ancestors| && i.ancestors[k] == i.identity;
    var v := Pump(parents, start, Trace(i), k, limit + 1);
    assert !Harmless(limit, child, v);
  }

  lemma StopIsJustified(limit: nat, parents: Parents, child: Key, start: Key, i: Item)
    requires exists rest :: Frontier(limit, parents, child, start, rest + [i])
    requires i.identity == child || i.identity in i.ancestors || i.depth >= limit
    ensures !LineageOk(limit, parents, child, start)
  {
    var rest :| Frontier(limit, parents, child, start, rest + [i]);
    assert (rest + [i])[|rest|] == i;
    if i.identity in i.ancestors {
      RepeatIsHarmful(limit, parents, child, start, i);
    } else {
      assert Trace(i)[|i.ancestors|] == i.identity;
      assert !Harmless(limit, child, Trace(i));
    }
  }

  lemma FrontierStart(limit: nat, parents: Parents, child: Key, start: Key)
    ensures Frontier(limit, parents, child, start, [Item(start, 0, [])])
  {
    var pending := [Item(start, 0, [])];
    assert Trace(pending[0]) == [start];
    forall w | ChainFrom(parents, start, w) ensures Covered(limit, pending, child, w) {
      assert Trace(pending[0]) <= w;
    }
  }

  lemma FrontierEmpty(limit: nat, parents: Parents, child: Key, start: Key)
    requires Frontier(limit, parents, child, start, [])
    ensures LineageOk(limit, parents, child, start)
  {
    forall w | ChainFrom(parents, start, w) ensures Harmless(limit, child, w) {
      assert Covered(limit, [], child, w);
    }
  }

  /** One turn of the walk keeps every line of ancestors accounted for. */
  lemma FrontierStep(limit: nat, parents: Parents, child: Key, start: Key, rest: seq<Item>, i: Item)
    requires Frontier(limit, parents, child, start, rest + [i])
    requires i.identity != child && i.identity !in i.ancestors && i.depth < limit
    ensures Frontier(limit, parents, child, start, rest + Successors(i, ParentsOf(parents, i.identity)))
  {
    var rows := ParentsOf(parents, i.identity);
    var next := rest + Successors(i, rows);
    assert (rest + [i])[|rest|] == i;
    forall j | 0 <= j < |next| ensures ItemOk(limit, parents, child, start, next[j]) {
      if j < |rest| {
        assert (rest + [i])[j] == next[j];
      } else {
        SuccessorOk(limit, parents, child, start, i, rows[j - |rest|]);
      }
    }
    forall w | ChainFrom(parents, start, w) ensures Covered(limit, next, child, w) {
      assert Covered(limit, rest + [i], child, w);
      if !Harmless(limit, child, w) {
        CoverStep(limit, parents, child, start, rest, i, w);
      }
    }
  }

  lemma SuccessorOk(limit: nat, parents: Parents, child: Key, start: Key, i: Item, row: Key)
    requires ItemOk(limit, parents, child, start, i) && i.identity != child && i.depth < limit
    requires row in ParentsOf(parents, i.identity)
    ensures ItemOk(limit, parents, child, start, Item(row, i.depth + 1, Trace(i)))
  {
    var w := Trace(i) + [row];
    forall k | 0 <= k < |w| - 1 ensures w[k + 1] in ParentsOf(parents, w[k]) {
      if k < |i.ancestors| {
        assert w[k] == Trace(i)[k] && w[k + 1] == Trace(i)[k + 1];
      }
    }
  }

  lemma CoverStep(limit: nat, parents: Parents, child: Key, start: Key, rest: seq<Item>, i: Item, w: seq<Key>)
    requires ItemOk(limit, parents, child, start, i) && i.identity != child && i.depth < limit
    requires ChainFrom(parents, start, w) && !Harmless(limit, child, w) && Reaches(rest + [i], w)
    ensures Reaches(rest + Successors(i, ParentsOf(parents, i.identity)), w)
  {
    var rows := ParentsOf(parents, i.identity);
    var next := rest + Successors(i, rows);
    var j :| 0 <= j < |rest + [i]| && Trace((rest + [i])[j]) <= w;
    if j < |rest| {
      assert next[j] == rest[j];
    } else {
      var q := Trace(i);
      assert q <= w && child !in q && |q| <= limit;
      assert q != w;
      var row := w[|q|];
      assert w[|q| - 1] == i.identity && row in rows;
      var m :| 0 <= m < |rows| && rows[m] == row;
      assert Trace(next[|rest| + m]) == q + [row] == w[..|q| + 1];
    }
  }

  /** `_assert_acyclic`: terminates, and accepts exactly the harmless lineages. */
  method AssertAcyclic(limit: nat, parents: Parents, child: Key, start: Key) returns (ok: bool)
    requires Bounded(parents)
    ensures ok <==> LineageOk(limit, parents, child, start)
  {
    var pending := [Item(start, 0, [])];
    FrontierStart(limit, parents, child, start);
    while pending != []
      invariant Frontier(limit, parents, child, start, pending)
      decreases TotalWeight(limit, pending)
    {
      var last := |pending| - 1;
      var i := pending[last];
      assert pending == pending[..last] + [i];
      if i.identity == child || i.identity in i.ancestors || i.depth >= limit {
        StopIsJustified(limit, parents, child, start, i);
        return false;
      }
      var rows := ParentsOf(parents, i.identity);
      FrontierStep(limit, parents, child, start, pending[..last], i);
      TurnShrinks(limit, pending[..last], i, rows);
      pending := pending[..last] + Successors(i, rows);
    }
    FrontierEmpty(limit, parents, child, start);
    return true;
  }

  // ---- What the check is for.

  predicate LinksKnownAt(parents: Parents, k: Key) {
    k in parents ==> forall p :: p in parents[k] ==> p in parents
  }

  ghost predicate LinksKnown(parents: Parents) {
    forall k {:trigger LinksKnownAt(parents, k)} :: LinksKnownAt(parents, k)
  }

  /** Links only to registered versions, few of them, and no line of ancestors longer than the limit. */
  ghost predicate LineageSound(parents: Parents) {
    && Bounded(parents)
    && LinksKnown(parents)
    && (forall w :: Chain(parents, w) ==> |w| <= MAX_DEPTH + 1)
  }

  /** Adding a new version whose parents all pass the check keeps every lineage short and free of cycles. */
  lemma RegisteringKeepsLineage(parents: Parents, child: Key, links: seq<Key>)
    requires LineageSound(parents) && child !in parents && |links| <= MAX_PARENTS
    requires forall p :: p in links ==> p in parents && LineageOk(MAX_DEPTH, parents, child, p)
    ensures LineageSound(parents[child := links])
  {
    var next := parents[child := links];
    forall k ensures LinksKnownAt(next, k) {
      assert LinksKnownAt(parents, k);
    }
    forall w | Chain(next, w) ensures |w| <= MAX_DEPTH + 1 {
      if w[0] == child {
        if |w| > 1 {
          var rest := w[1..];
          forall i | 0 <= i < |rest| - 1 ensures rest[i + 1] in ParentsOf(next, rest[i]) {
            assert rest[i] == w[i + 1] && rest[i + 1] == w[i + 2];
          }
          OldChain(parents, child, links, rest);
          assert w[0 + 1] in ParentsOf(next, w[0]);
          assert ChainFrom(parents, rest[0], rest);
        }
      } else {
        OldChain(parents, child, links, w);
      }
    }
  }

  /** A line that starts at an old version never meets the new one. */
  lemma {:induction false} OldChain(parents: Parents, child: Key, links: seq<Key>, w: seq<Key>)
    requires LinksKnown(parents) && child !in parents
    requires Chain(parents[child := links], w) && w[0] != child
    ensures Chain(parents, w)
    decreases |w|
  {
    if |w| > 1 {
      var next := parents[child := links];
      assert w[0 + 1] in ParentsOf(next, w[0]);
      var rest := w[1..];
      forall i | 0 <= i < |rest| - 1 ensures rest[i + 1] in ParentsOf(next, rest[i]) {
        assert rest[i] == w[i + 1] && rest[i + 1] == w[i + 2];
      }
      assert LinksKnownAt(parents, w[0]);
      OldChain(parents, child, links, rest);
      forall i | 0 <= i < |w| - 1 ensures w[i + 1] in ParentsOf(parents, w[i]) {
        if i > 0 {
          assert rest[i] in ParentsOf(parents, rest[i - 1]);
        }
      }
    }
  }

  /** A sound lineage has no cycles. */
  lemma SoundLineageAcyclic(parents: Parents, w: seq<Key>)
    requires LineageSound(parents) && Chain(parents, w) && |w| >= 2
    ensures w[0] != w[|w| - 1]
  {
    if w[0] == w[|w| - 1] {
      var v := Pump(parents, w[0], w, 0, MAX_DEPTH + 2);
      assert false;
    }
  }
}

/** The registry's tables as a value, its operations, and what they keep. */
module DnaRecords {
  import opened Wrappers
  import opened DnaLineage

  datatype Status = Candidate | Validated | Shadow | Canary | Active | Deprecated | Retired

  datatype Record = Record(status: Status, revision: nat, digest: int)

  /** One row of the append-only transition table. */
  datatype Entry = Entry(key: Key, from: Option<Status>, to: Status, revision: nat)

  datatype Registry = Registry(records: map<Key, Record>, parents: Parents, log: seq<Entry>)

  datatype DnaError =
    | NotFound | NotCandidate | TooManyParents | LineageProblem | ParentMismatch | AlreadyExists
    | IllegalTransition | RevisionConflict | NotCanary | NoActive | NotDeprecated | SecondActive

  /** `_ALLOWED`. */
  predicate Allowed(a: Status, b: Status) {
    match a
    case Candidate => b in {Validated, Retired}
    case Validated => b in {Shadow, Retired}
    case Shadow => b in {Canary, Retired}
    case Canary => b in {Active, Retired}
    case Active => b == Deprecated
    case Deprecated => b == Retired
    case Retired => false
  }

  /** A step of some version: a declared one, or the return of a deprecated version by rollback. */
  predicate Legal(a: Status, b: Status) {
    Allowed(a, b) || (a == Deprecated && b == Active)
  }

  // ---- The log determines the record.

  datatype Replayed = Absent | At(status: Status, revision: nat) | Broken

  function ReplayEntry(r: Replayed, e: Entry): Replayed {
    match r
    case Absent => if e.from.None? && e.to == Candidate && e.revision == 0 then At(Candidate, 0) else Broken
    case At(s, n) => if e.from == Some(s) && Legal(s, e.to) && e.revision == n + 1 then At(e.to, n + 1) else Broken
    case Broken => Broken
  }

  function Replay(log: seq<Entry>, key: Key): Replayed
    decreases |log|
  {
    if log == [] then Absent
    else
      var e := log[|log| - 1];
      var earlier := Replay(log[..|log| - 1], key);
      if e.key == key then ReplayEntry(earlier, e) else earlier
  }

  function Held(records: map<Key, Record>, key: Key): Replayed {
    if key in records then At(records[key].status, records[key].revision) else Absent
  }

  predicate Even(n: nat) { n % 2 == 0 }

  /** The revision a status can have: promotion goes up one by one, then ACTIVE and DEPRECATED alternate. */
  predicate PhaseOk(s: Status, revision: nat) {
    match s
    case Candidate => revision == 0
    case Validated => revision == 1
    case Shadow => revision == 2
    case Canary => revision == 3
    case Active => revision >= 4 && Even(revision)
    case Deprecated => revision >= 5 && !Even(revision)
    case Retired => revision >= 1
  }

  lemma {:induction false} ReplayPhase(log: seq<Entry>, key: Key)
    ensures Replay(log, key).At? ==> PhaseOk(Replay(log, key).status, Replay(log, key).revision)
    decreases |log|
  {
    if log != [] {
      ReplayPhase(log[..|log| - 1], key);
    }
  }

  lemma ReplayAppend(log: seq<Entry>, e: Entry, key: Key)
    ensures Replay(log + [e], key) == if e.key == key then ReplayEntry(Replay(log, key), e) else Replay(log, key)
  {
    assert (log + [e])[..|log|] == log;
  }

  predicate IsActive(records: map<Key, Record>, key: Key) {
    key in records && records[key].status == Active
  }

  ghost predicate OneActive(records: map<Key, Record>) {
    forall d, v, w :: IsActive(records, Key(d, v)) && IsActive(records, Key(d, w)) ==> v == w
  }

  predicate AgreesAt(records: map<Key, Record>, log: seq<Entry>, key: Key) {
    Replay(log, key) == Held(records, key)
  }

  ghost predicate LogAgrees(records: map<Key, Record>, log: seq<Entry>) {
    forall key {:trigger AgreesAt(records, log, key)} :: AgreesAt(records, log, key)
  }

  ghost predicate Sound(r: Registry) {
    && LogAgrees(r.records, r.log)
    && OneActive(r.records)
    && r.parents.Keys == r.records.Keys
    && LineageSound(r.parents)
  }

  // ---- Operations.

  predicate OtherActive(records: map<Key, Record>, key: Key) {
    exists k :: k in records && k.dna == key.dna && k != key && records[k].status == Active
  }

  /** `_change`: compare-and-swap on the revision, under the unique index on ACTIVE rows. */
  function Change(r: Registry, key: Key, to: Status, expected: int, rollback: bool): Result<Registry, DnaError>
    requires key in r.records
  {
    var row := r.records[key];
    if row.revision != expected then Err(RevisionConflict)
    else if !rollback && !Allowed(row.status, to) then Err(IllegalTransition)
    else if to == Active && OtherActive(r.records, key) then Err(SecondActive)
    else Ok(Changed(r, key, to))
  }

  function Changed(r: Registry, key: Key, to: Status): Registry
    requires key in r.records
  {
    var row := r.records[key];
    r.(records := r.records[key := row.(status := to, revision := row.revision + 1)],
       log := r.log + [Entry(key, Some(row.status), to, row.revision + 1)])
  }

  function Transition(r: Registry, key: Key, to: Status, expected: int): Result<Registry, DnaError> {
    if key !in r.records then Err(NotFound)
    else if !Allowed(r.records[key].status, to) then Err(IllegalTransition)
    else Change(r, key, to, expected, false)
  }

  function ActiveVersion(records: map<Key, Record>, dna: int): (v: Option<int>)
    requires OneActive(records)
    ensures v.Some? ==> IsActive(records, Key(dna, v.value))
    ensures v.None? ==> forall w :: !IsActive(records, Key(dna, w))
  {
    if exists k :: k in records && k.dna == dna && records[k].status == Active then
      assert forall k, l :: IsActive(records, k) && IsActive(records, l) && k.dna == dna == l.dna ==>
        k == Key(dna, k.version) && l == Key(dna, l.version);
      var k :| k in records && k.dna == dna && records[k].status == Active;
      assert k == Key(dna, k.version);
      Some(k.version)
    else
      None
  }

  /** `activate`: the current ACTIVE version makes way in the same transaction. */
  function Activate(r: Registry, key: Key, expected: int): Result<Registry, DnaError>
    requires OneActive(r.records)
  {
    if key !in r.records then Err(NotFound)
    else if r.records[key].status != Canary then Err(NotCanary)
    else
      var current := ActiveVersion(r.records, key.dna);
      if current.Some? && current.value != key.version then
        var previous := Key(key.dna, current.value);
        var cleared := Change(r, previous, Deprecated, r.records[previous].revision, false);
        if cleared.Err? then cleared else Change(cleared.value, key, Active, expected, false)
      else
        Change(r, key, Active, expected, false)
  }

  function Rollback(r: Registry, dna: int, target: int, expectedActive: int, expectedTarget: int): Result<Registry, DnaError>
    requires OneActive(r.records)
  {
    var active := ActiveVersion(r.records, dna);
    if active.None? then Err(NoActive)
    else if Key(dna, target) !in r.records then Err(NotFound)
    else if r.records[Key(dna, target)].status != Deprecated then Err(NotDeprecated)
    else
      var cleared := Change(r, Key(dna, active.value), Deprecated, expectedActive, false);
      if cleared.Err? then cleared else Change(cleared.value, Key(dna, target), Active, expectedTarget, true)
  }

  predicate DigestTaken(records: map<Key, Record>, dna: int, digest: int) {
    exists k :: k in records && k.dna == dna && records[k].digest == digest
  }

  function Registered(r: Registry, key: Key, digest: int, parents: seq<Key>): Registry {
    Registry(r.records[key := Record(Candidate, 0, digest)], r.parents[key := parents],
             r.log + [Entry(key, None, Candidate, 0)])
  }

  predicate NoRepeats(parents: seq<Key>) {
    forall i, j :: 0 <= i < j < |parents| ==> parents[i] != parents[j]
  }

  /** `_validate_parents` on one parent and the digest claimed for it. */
  ghost function ParentProblem(r: Registry, key: Key, p: Key, digest: int): Option<DnaError> {
    if p == key then Some(LineageProblem)
    else if p !in r.records || r.records[p].digest != digest then Some(ParentMismatch)
    else if !LineageOk(MAX_DEPTH, r.parents, key, p) then Some(LineageProblem)
    else None
  }

  ghost function FirstProblem(r: Registry, key: Key, parents: seq<Key>, digests: seq<int>): Option<DnaError>
    requires |digests| == |parents|
  {
    if parents == [] then None
    else
      var problem := ParentProblem(r, key, parents[0], digests[0]);
      if problem.Some? then problem else FirstProblem(r, key, parents[1..], digests[1..])
  }

  ghost function ParentsProblem(r: Registry, key: Key, parents: seq<Key>, digests: seq<int>): Option<DnaError>
    requires |digests| == |parents|
  {
    if |parents| > MAX_PARENTS then Some(TooManyParents) else FirstProblem(r, key, parents, digests)
  }

  /** `register`; the primary key, the digest index and the parent index are the database's own checks. */
  ghost function Register(r: Registry, key: Key, status: Status, digest: int, parents: seq<Key>, digests: seq<int>): Result<Registry, DnaError>
    requires |digests| == |parents|
  {
    var problem := ParentsProblem(r, key, parents, digests);
    if status != Candidate then Err(NotCandidate)
    else if problem.Some? then Err(problem.value)
    else if key in r.records || DigestTaken(r.records, key.dna, digest) || !NoRepeats(parents) then Err(AlreadyExists)
    else Ok(Registered(r, key, digest, parents))
  }

  /** What the tables demand of a new version. */
  ghost predicate MayRegister(r: Registry, key: Key, digest: int, parents: seq<Key>) {
    && key !in r.records && |parents| <= 4
    && (forall k :: k in r.records && k.dna == key.dna ==> r.records[k].digest != digest)
    && (forall i, j :: 0 <= i < j < |parents| ==> parents[i] != parents[j])
    && forall p :: p in parents ==> p in r.records && LineageOk(MAX_DEPTH, r.parents, key, p)
  }

  lemma {:induction false} FirstProblemExact(r: Registry, key: Key, parents: seq<Key>, digests: seq<int>)
    requires |digests| == |parents|
    ensures FirstProblem(r, key, parents, digests).None? <==>
      forall i :: 0 <= i < |parents| ==> ParentProblem(r, key, parents[i], digests[i]).None?
  {
    if parents != [] {
      FirstProblemExact(r, key, parents[1..], digests[1..]);
      assert forall i :: 1 <= i < |parents| ==> parents[i] == parents[1..][i - 1] && digests[i] == digests[1..][i - 1];
    }
  }

  /** `register` works exactly for a CANDIDATE the tables can take, whose parents have the digests claimed for them. */
  lemma RegisterExact(r: Registry, key: Key, status: Status, digest: int, parents: seq<Key>, digests: seq<int>)
    requires |digests| == |parents|
    ensures Register(r, key, status, digest, parents, digests).Ok? <==>
      && status == Candidate && MayRegister(r, key, digest, parents)
      && forall i :: 0 <= i < |parents| ==> parents[i] in r.records && r.records[parents[i]].digest == digests[i]
  {
    FirstProblemExact(r, key, parents, digests);
    if Register(r, key, status, digest, parents, digests).Ok? {
      forall p | p in parents ensures p in r.records && LineageOk(MAX_DEPTH, r.parents, key, p) {
        var i :| 0 <= i < |parents| && parents[i] == p;
        assert ParentProblem(r, key, parents[i], digests[i]).None?;
      }
      forall i | 0 <= i < |parents| ensures parents[i] in r.records && r.records[parents[i]].digest == digests[i] {
        assert ParentProblem(r, key, parents[i], digests[i]).None?;
      }
    }
  }

  // ---- What every operation keeps.

  lemma ChangedKeepsLog(r: Registry, key: Key, to: Status)
    requires LogAgrees(r.records, r.log) && key in r.records && Legal(r.records[key].status, to)
    ensures LogAgrees(Changed(r, key, to).records, Changed(r, key, to).log)
  {
    var t := Changed(r, key, to);
    forall k ensures AgreesAt(t.records, t.log, k) {
      ReplayAppend(r.log, t.log[|r.log|], k);
      assert AgreesAt(r.records, r.log, k);
    }
  }

  lemma ChangedKeepsOneActive(r: Registry, key: Key, to: Status)
    requires OneActive(r.records) && key in r.records && (to == Active ==> !OtherActive(r.records, key))
    ensures OneActive(Changed(r, key, to).records)
  {
    var t := Changed(r, key, to).records;
    forall d, v, w | IsActive(t, Key(d, v)) && IsActive(t, Key(d, w)) ensures v == w {
      if Key(d, v) != key && Key(d, w) != key {
        assert IsActive(r.records, Key(d, v)) && IsActive(r.records, Key(d, w));
      }
    }
  }

  lemma ChangeKeepsSound(r: Registry, key: Key, to: Status, expected: int, rollback: bool)
    requires Sound(r) && key in r.records && (rollback ==> r.records[key].status == Deprecated && to == Active)
    requires Change(r, key, to, expected, rollback).Ok?
    ensures Sound(Change(r, key, to, expected, rollback).value)
  {
    ChangedKeepsLog(r, key, to);
    ChangedKeepsOneActive(r, key, to);
  }

  /** The declared life of a version. */
  predicate Declared(a: Status, b: Status) {
    || (a == Candidate && b == Validated) || (a == Validated && b == Shadow) || (a == Shadow && b == Canary)
    || (a == Canary && b == Active) || (a == Active && b == Deprecated)
    || (b == Retired && a != Active && a != Retired)
  }

  /** A transition works exactly along the declared life, at the revision the caller saw, and to ACTIVE only while no other
      version of the DNA is; it moves this row alone, one revision on, and logs it. */
  lemma TransitionExact(r: Registry, key: Key, to: Status, expected: int)
    ensures var t := Transition(r, key, to, expected);
      && (t.Ok? <==>
            && key in r.records && r.records[key].revision == expected && Declared(r.records[key].status, to)
            && (to == Active ==> forall k :: k in r.records && k.dna == key.dna && k != key ==> r.records[k].status != Active))
      && (t.Ok? ==>
            && t.value.records == r.records[key := Record(to, r.records[key].revision + 1, r.records[key].digest)]
            && t.value.parents == r.parents
            && t.value.log == r.log + [Entry(key, Some(r.records[key].status), to, r.records[key].revision + 1)])
  {
  }

  lemma PhasesOk(r: Registry, key: Key)
    requires LogAgrees(r.records, r.log) && key in r.records
    ensures PhaseOk(r.records[key].status, r.records[key].revision)
  {
    assert AgreesAt(r.records, r.log, key);
    ReplayPhase(r.log, key);
  }

  lemma TransitionKeepsSound(r: Registry, key: Key, to: Status, expected: int)
    requires Sound(r) && Transition(r, key, to, expected).Ok?
    ensures Sound(Transition(r, key, to, expected).value)
  {
    ChangeKeepsSound(r, key, to, expected, false);
  }

  /** The registry with `key` ACTIVE and its predecessor, if any, DEPRECATED; nothing else moves. */
  ghost predicate Activated(before: Registry, after: Registry, key: Key) {
    && after.records.Keys == before.records.Keys && after.parents == before.parents && before.log <= after.log
    && key in after.records && after.records[key].status == Active
    && (forall k :: k in before.records && k != key ==>
          after.records[k] == if k.dna == key.dna && before.records[k].status == Active
                              then before.records[k].(status := Deprecated, revision := before.records[k].revision + 1)
                              else before.records[k])
  }

  /** With a predecessor to replace. */
  lemma ActivateReplaces(r: Registry, key: Key, previous: Key)
    requires OneActive(r.records) && key in r.records && r.records[key].status == Canary
    requires IsActive(r.records, previous) && previous.dna == key.dna
    ensures Change(r, previous, Deprecated, r.records[previous].revision, false).Ok?
    ensures var cleared := Change(r, previous, Deprecated, r.records[previous].revision, false).value;
      !OtherActive(cleared.records, key) && cleared.records[key] == r.records[key]
  {
    OnlyOneOther(r.records, previous);
  }

  lemma NobodyActive(r: Registry, key: Key)
    requires forall w :: !IsActive(r.records, Key(key.dna, w))
    ensures !OtherActive(r.records, key)
  {
    forall k | k in r.records && k.dna == key.dna ensures r.records[k].status != Active {
      assert k == Key(key.dna, k.version);
      assert !IsActive(r.records, Key(key.dna, k.version));
    }
  }

  /** `activate` works exactly on a CANARY row at the expected revision: the unique index never stands in its way. */
  lemma ActivateExact(r: Registry, key: Key, expected: int)
    requires OneActive(r.records) && key in r.records
    ensures Activate(r, key, expected).Ok? <==> r.records[key].status == Canary && r.records[key].revision == expected
  {
    var current := ActiveVersion(r.records, key.dna);
    if r.records[key].status == Canary {
      if current.Some? {
        ActivateReplaces(r, key, Key(key.dna, current.value));
      } else {
        NobodyActive(r, key);
      }
    }
  }

  lemma ActivateKeepsSound(r: Registry, key: Key, expected: int)
    requires Sound(r) && key in r.records && Activate(r, key, expected).Ok?
    ensures Sound(Activate(r, key, expected).value)
  {
    var current := ActiveVersion(r.records, key.dna);
    var base := r;
    if current.Some? {
      var previous := Key(key.dna, current.value);
      ChangeKeepsSound(r, previous, Deprecated, r.records[previous].revision, false);
      base := Change(r, previous, Deprecated, r.records[previous].revision, false).value;
    }
    ChangeKeepsSound(base, key, Active, expected, false);
  }

  /** What a successful `activate` does to the table. */
  lemma ActivateEffect(r: Registry, key: Key, expected: int)
    requires OneActive(r.records) && key in r.records && Activate(r, key, expected).Ok?
    ensures Activated(r, Activate(r, key, expected).value, key)
  {
    var current := ActiveVersion(r.records, key.dna);
    if current.Some? {
      OnlyOneOther(r.records, Key(key.dna, current.value));
    } else {
      NobodyActive(r, key);
    }
  }

  lemma OnlyOneOther(records: map<Key, Record>, one: Key)
    requires OneActive(records) && IsActive(records, one)
    ensures forall k :: IsActive(records, k) && k.dna == one.dna ==> k == one
  {
    forall k | IsActive(records, k) && k.dna == one.dna ensures k == one {
      assert k == Key(one.dna, k.version) && one == Key(one.dna, one.version);
    }
  }

  /** The registry after a rollback: `from` DEPRECATED, `to` ACTIVE again, nothing else moved. */
  ghost predicate RolledBack(before: Registry, after: Registry, from: Key, to: Key) {
    && from in before.records && to in before.records && from != to
    && after.parents == before.parents && before.log <= after.log
    && after.records == before.records
         [from := before.records[from].(status := Deprecated, revision := before.records[from].revision + 1)]
         [to := before.records[to].(status := Active, revision := before.records[to].revision + 1)]
  }

  ghost predicate RollbackAllowed(r: Registry, from: Key, to: Key, expectedActive: int, expectedTarget: int) {
    && IsActive(r.records, from) && to in r.records && r.records[to].status == Deprecated && from.dna == to.dna
    && r.records[from].revision == expectedActive && r.records[to].revision == expectedTarget
  }

  lemma RollbackSteps(r: Registry, from: Key, to: Key, expectedActive: int, expectedTarget: int)
    requires OneActive(r.records) && RollbackAllowed(r, from, to, expectedActive, expectedTarget)
    ensures Change(r, from, Deprecated, expectedActive, false).Ok?
    ensures var cleared := Change(r, from, Deprecated, expectedActive, false).value;
      Change(cleared, to, Active, expectedTarget, true).Ok? &&
      RolledBack(r, Change(cleared, to, Active, expectedTarget, true).value, from, to)
  {
    OnlyOneOther(r.records, from);
  }

  /** `rollback` works exactly when the ACTIVE row, the DEPRECATED target and both revisions are as expected. */
  lemma RollbackExact(r: Registry, dna: int, target: int, expectedActive: int, expectedTarget: int)
    requires OneActive(r.records)
    ensures var active := ActiveVersion(r.records, dna); var result := Rollback(r, dna, target, expectedActive, expectedTarget);
      result.Ok? <==> active.Some? && RollbackAllowed(r, Key(dna, active.value), Key(dna, target), expectedActive, expectedTarget)
    ensures var active := ActiveVersion(r.records, dna); var result := Rollback(r, dna, target, expectedActive, expectedTarget);
      result.Ok? ==> RolledBack(r, result.value, Key(dna, active.value), Key(dna, target))
  {
    var active := ActiveVersion(r.records, dna);
    if active.Some? && RollbackAllowed(r, Key(dna, active.value), Key(dna, target), expectedActive, expectedTarget) {
      RollbackSteps(r, Key(dna, active.value), Key(dna, target), expectedActive, expectedTarget);
    }
  }

  lemma RollbackKeepsSound(r: Registry, dna: int, target: int, expectedActive: int, expectedTarget: int)
    requires Sound(r) && Rollback(r, dna, target, expectedActive, expectedTarget).Ok?
    ensures Sound(Rollback(r, dna, target, expectedActive, expectedTarget).value)
  {
    var from, to := Key(dna, ActiveVersion(r.records, dna).value), Key(dna, target);
    ChangeKeepsSound(r, from, Deprecated, expectedActive, false);
    ChangeKeepsSound(Change(r, from, Deprecated, expectedActive, false).value, to, Active, expectedTarget, true);
  }

  /** A rollback asked for with the revision of a version that is not ACTIVE can never hit by accident,
      as long as that version has not been retired. */
  lemma RevisionsTellActive(r: Registry, dna: int, version: int)
    requires Sound(r) && Key(dna, version) in r.records && r.records[Key(dna, version)].status in {Active, Deprecated}
    requires ActiveVersion(r.records, dna).Some?
    requires r.records[Key(dna, ActiveVersion(r.records, dna).value)].revision == r.records[Key(dna, version)].revision
    ensures r.records[Key(dna, version)].status == Active && ActiveVersion(r.records, dna) == Some(version)
  {
    PhasesOk(r, Key(dna, version));
    PhasesOk(r, Key(dna, ActiveVersion(r.records, dna).value));
    OnlyOneOther(r.records, Key(dna, ActiveVersion(r.records, dna).value));
  }

  lemma RegisteredKeepsSound(r: Registry, key: Key, digest: int, parents: seq<Key>)
    requires Sound(r) && key !in r.records && |parents| <= MAX_PARENTS
    requires forall p :: p in parents ==> p in r.records && LineageOk(MAX_DEPTH, r.parents, key, p)
    ensures Sound(Registered(r, key, digest, parents))
  {
    var t := Registered(r, key, digest, parents);
    forall k ensures AgreesAt(t.records, t.log, k) {
      ReplayAppend(r.log, t.log[|r.log|], k);
      assert AgreesAt(r.records, r.log, k);
    }
    forall d, v, w | IsActive(t.records, Key(d, v)) && IsActive(t.records, Key(d, w)) ensures v == w {
      assert IsActive(r.records, Key(d, v)) && IsActive(r.records, Key(d, w));
    }
    RegisteringKeepsLineage(r.parents, key, parents);
  }

  // ---- Runs of arbitrary callers.

  datatype Op =
    | TransitionOp(key: Key, to: Status, expected: int)
    | ActivateOp(key: Key, expected: int)
    | RollbackOp(dna: int, target: int, expectedActive: int, expectedTarget: int)
    | RegisterOp(key: Key, digest: int, parents: seq<Key>)

  /** The tables after one call; a raised error leaves them alone. */
  ghost function Applied(r: Registry, op: Op): Registry
    requires Sound(r)
  {
    match op
    case TransitionOp(key, to, expected) =>
      var t := Transition(r, key, to, expected); if t.Ok? then t.value else r
    case ActivateOp(key, expected) =>
      var t := Activate(r, key, expected); if t.Ok? then t.value else r
    case RollbackOp(dna, target, expectedActive, expectedTarget) =>
      var t := Rollback(r, dna, target, expectedActive, expectedTarget); if t.Ok? then t.value else r
    case RegisterOp(key, digest, parents) =>
      if MayRegister(r, key, digest, parents) then Registered(r, key, digest, parents) else r
  }

  lemma AppliedKeepsSound(r: Registry, op: Op)
    requires Sound(r)
    ensures Sound(Applied(r, op))
  {
    match op
    case TransitionOp(key, to, expected) =>
      if Transition(r, key, to, expected).Ok? { TransitionKeepsSound(r, key, to, expected); }
    case ActivateOp(key, expected) =>
      if key in r.records && Activate(r, key, expected).Ok? { ActivateKeepsSound(r, key, expected); }
    case RollbackOp(dna, target, expectedActive, expectedTarget) =>
      if Rollback(r, dna, target, expectedActive, expectedTarget).Ok? {
        RollbackKeepsSound(r, dna, target, expectedActive, expectedTarget);
      }
    case RegisterOp(key, digest, parents) =>
      if MayRegister(r, key, digest, parents) { RegisteredKeepsSound(r, key, digest, parents); }
  }

  /** Rows are never removed, and a RETIRED one never changes again. */
  ghost predicate RetiredKept(r: Registry, t: Registry) {
    forall k :: k in r.records ==> k in t.records && (r.records[k].status == Retired ==> t.records[k] == r.records[k])
  }

  lemma ActivateKeepsRetired(r: Registry, key: Key, expected: int)
    requires Sound(r) && key in r.records && Activate(r, key, expected).Ok?
    ensures RetiredKept(r, Activate(r, key, expected).value) && r.log <= Activate(r, key, expected).value.log
  {
    ActivateExact(r, key, expected);
    ActivateEffect(r, key, expected);
  }

  lemma RollbackKeepsRetired(r: Registry, dna: int, target: int, expectedActive: int, expectedTarget: int)
    requires Sound(r) && Rollback(r, dna, target, expectedActive, expectedTarget).Ok?
    ensures var t := Rollback(r, dna, target, expectedActive, expectedTarget).value; RetiredKept(r, t) && r.log <= t.log
  {
    RollbackExact(r, dna, target, expectedActive, expectedTarget);
  }

  lemma AppliedKeepsRetired(r: Registry, op: Op)
    requires Sound(r)
    ensures RetiredKept(r, Applied(r, op)) && r.log <= Applied(r, op).log
  {
    match op
    case TransitionOp(key, to, expected) =>
    case ActivateOp(key, expected) =>
      if key in r.records && Activate(r, key, expected).Ok? { ActivateKeepsRetired(r, key, expected); }
    case RollbackOp(dna, target, expectedActive, expectedTarget) =>
      if Rollback(r, dna, target, expectedActive, expectedTarget).Ok? {
        RollbackKeepsRetired(r, dna, target, expectedActive, expectedTarget);
      }
    case RegisterOp(key, digest, parents) =>
  }

  ghost function Ran(r: Registry, ops: seq<Op>): (t: Registry)
    requires Sound(r)
    ensures Sound(t)
    decreases |ops|
  {
    if ops == [] then r
    else
      AppliedKeepsSound(Ran(r, ops[..|ops| - 1]), ops[|ops| - 1]);
      Applied(Ran(r, ops[..|ops| - 1]), ops[|ops| - 1])
  }

  /** Whoever calls, in whatever order: records replay from the log, one version per DNA is ACTIVE, RETIRED is final. */
  lemma {:induction false} RunsStaySound(r: Registry, ops: seq<Op>)
    requires Sound(r)
    ensures var t := Ran(r, ops);
      RetiredKept(r, t) && r.log <= t.log && LogAgrees(t.records, t.log) && OneActive(t.records) && LineageSound(t.parents)
    decreases |ops|
  {
    if ops != [] {
      RunsStaySound(r, ops[..|ops| - 1]);
      AppliedKeepsRetired(Ran(r, ops[..|ops| - 1]), ops[|ops| - 1]);
    }
  }
}

module DnaRepository {
  import opened Wrappers
  import opened DnaLineage
  import opened DnaRecords

  class PersistentDnaRegistry {
    var tables: Registry

    constructor ()
      ensures Sound(tables) && tables == Registry(map[], map[], [])
    {
      tables := Registry(map[], map[], []);
      new;
      forall w | Chain(tables.parents, w) ensures |w| <= MAX_DEPTH + 1 {
        assert |w| > 1 ==> w[0 + 1] in ParentsOf(tables.parents, w[0]);
      }
    }

    /** `_validate_parents`: the first problem of the first parent that has one. */
    method ValidateParents(key: Key, parents: seq<Key>, digests: seq<int>) returns (e: Option<DnaError>)
      requires Sound(tables) && |digests| == |parents|
      ensures e == ParentsProblem(tables, key, parents, digests)
    {
      if |parents| > MAX_PARENTS {
        return Some(TooManyParents);
      }
      for i := 0 to |parents|
        invariant FirstProblem(tables, key, parents[i..], digests[i..]) == FirstProblem(tables, key, parents, digests)
      {
        assert parents[i..][1..] == parents[i + 1..] && digests[i..][1..] == digests[i + 1..];
        if parents[i] == key {
          return Some(LineageProblem);
        }
        if parents[i] !in tables.records || tables.records[parents[i]].digest != digests[i] {
          return Some(ParentMismatch);
        }
        var ok := AssertAcyclic(MAX_DEPTH, tables.parents, key, parents[i]);
        if !ok {
          return Some(LineageProblem);
        }
      }
      return None;
    }

    /** A new CANDIDATE with its log entry, in one transaction. */
    method RegisterVersion(key: Key, status: Status, digest: int, parents: seq<Key>, digests: seq<int>) returns (r: Result<Record, DnaError>)
      requires Sound(tables) && |digests| == |parents|
      modifies this
      ensures Sound(tables)
      ensures r.Ok? <==>
        && status == Candidate && MayRegister(old(tables), key, digest, parents)
        && forall i :: 0 <= i < |parents| ==> parents[i] in old(tables).records && old(tables).records[parents[i]].digest == digests[i]
      ensures r.Ok? ==> Register(old(tables), key, status, digest, parents, digests) == Ok(tables)
      ensures r.Ok? ==> tables == Registered(old(tables), key, digest, parents) && r.value == tables.records[key]
      ensures r.Err? ==> tables == old(tables) && Register(old(tables), key, status, digest, parents, digests) == Err(r.error)
    {
      RegisterExact(tables, key, status, digest, parents, digests);
      if status != Candidate {
        return Err(NotCandidate);
      }
      var problem := ValidateParents(key, parents, digests);
      if problem.Some? {
        return Err(problem.value);
      }
      if key in tables.records || DigestTaken(tables.records, key.dna, digest) || !NoRepeats(parents) {
        return Err(AlreadyExists);
      }
      RegisteredKeepsSound(tables, key, digest, parents);
      tables := Registered(tables, key, digest, parents);
      return Ok(tables.records[key]);
    }

    method TransitionTo(key: Key, to: Status, expected: int) returns (r: Result<Record, DnaError>)
      requires Sound(tables)
      modifies this
      ensures Sound(tables)
      ensures r.Ok? <==> Transition(old(tables), key, to, expected).Ok?
      ensures r.Ok? ==> Transition(old(tables), key, to, expected) == Ok(tables) && key in tables.records && r.value == tables.records[key]
      ensures r.Err? ==> tables == old(tables) && Transition(old(tables), key, to, expected) == Err(r.error)
    {
      if key !in tables.records {
        return Err(NotFound);
      }
      if !Allowed(tables.records[key].status, to) {
        return Err(IllegalTransition);
      }
      var changed := Change(tables, key, to, expected, false);
      if changed.Err? {
        return Err(changed.error);
      }
      TransitionKeepsSound(tables, key, to, expected);
      tables := changed.value;
      return Ok(tables.records[key]);
    }

    /** Two updates in one transaction: a failure of the second undoes the first. */
    method ActivateVersion(key: Key, expected: int) returns (r: Result<Record, DnaError>)
      requires Sound(tables)
      modifies this
      ensures Sound(tables)
      ensures r.Ok? <==> key in old(tables).records && old(tables).records[key].status == Canary && old(tables).records[key].revision == expected
      ensures r.Ok? ==> Activate(old(tables), key, expected) == Ok(tables) && Activated(old(tables), tables, key) && r.value == tables.records[key]
      ensures r.Err? ==> tables == old(tables) && Activate(old(tables), key, expected) == Err(r.error)
    {
      if key !in tables.records {
        return Err(NotFound);
      }
      ActivateExact(tables, key, expected);
      ghost var goal := Activate(tables, key, expected);
      if goal.Ok? {
        ActivateEffect(tables, key, expected);
        ActivateKeepsSound(tables, key, expected);
      }
      var before := tables;
      if tables.records[key].status != Canary {
        return Err(NotCanary);
      }
      var current := ActiveVersion(tables.records, key.dna);
      if current.Some? && current.value != key.version {
        var previous := Key(key.dna, current.value);
        var cleared := Change(tables, previous, Deprecated, tables.records[previous].revision, false);
        if cleared.Err? {
          return Err(cleared.error);
        }
        tables := cleared.value;
      }
      var changed := Change(tables, key, Active, expected, false);
      if changed.Err? {
        tables := before;
        return Err(changed.error);
      }
      tables := changed.value;
      return Ok(tables.records[key]);
    }

    method RollbackTo(dna: int, target: int, expectedActive: int, expectedTarget: int) returns (r: Result<Record, DnaError>)
      requires Sound(tables)
      modifies this
      ensures Sound(tables)
      ensures r.Ok? <==> Rollback(old(tables), dna, target, expectedActive, expectedTarget).Ok?
      ensures r.Ok? ==> Rollback(old(tables), dna, target, expectedActive, expectedTarget) == Ok(tables)
      ensures r.Ok? ==> RolledBack(old(tables), tables, Key(dna, ActiveVersion(old(tables).records, dna).value), Key(dna, target))
      ensures r.Err? ==> tables == old(tables) && Rollback(old(tables), dna, target, expectedActive, expectedTarget) == Err(r.error)
    {
      RollbackExact(tables, dna, target, expectedActive, expectedTarget);
      ghost var goal := Rollback(tables, dna, target, expectedActive, expectedTarget);
      if goal.Ok? { RollbackKeepsSound(tables, dna, target, expectedActive, expectedTarget); }
      var before := tables;
      var active := ActiveVersion(tables.records, dna);
      if active.None? {
        return Err(NoActive);
      }
      if Key(dna, target) !in tables.records {
        return Err(NotFound);
      }
      if tables.records[Key(dna, target)].status != Deprecated {
        return Err(NotDeprecated);
      }
      var cleared := Change(tables, Key(dna, active.value), Deprecated, expectedActive, false);
      if cleared.Err? {
        return Err(cleared.error);
      }
      tables := cleared.value;
      var changed := Change(tables, Key(dna, target), Active, expectedTarget, true);
      if changed.Err? {
        tables := before;
        return Err(changed.error);
      }
      tables := changed.value;
      return Ok(tables.records[Key(dna, target)]);
    }
  }
}
