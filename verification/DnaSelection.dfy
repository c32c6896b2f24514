// domain_sdk/dna_selection.py: hard gate, Pareto front and diversity ranking of a candidate population.
// Scores are exact reals; the rounding of novelty to six digits is not modelled.

module SelectionRules {
  import opened Wrappers

  /** One measured candidate; rates up is better, costs, latencies and risk down is better. */
  datatype Vector = Vector(success: real, evidence: real, userValue: real, stability: real,
                           cost: real, latency: real, p95: real, risk: real)

  /** `operations` is the signature: the set of edit operations of the proposal. */
  datatype Candidate = Candidate(id: int, digest: int, operations: set<int>, passed: bool, clean: bool, vector: Vector)

  datatype Policy = Policy(maximumSurvivors: nat, minimumNovelty: real) {
    predicate Valid() { maximumSurvivors >= 1 && 0.0 <= minimumNovelty <= 1.0 }
  }

  datatype Disposition = Selected | Dominated | Duplicate | HardRejected | Capacity

  // ---- Dominance.

  function Values(v: Vector): (s: seq<real>)
    ensures |s| == 8
  {
    [v.success, v.evidence, v.userValue, v.stability, -v.cost, -v.latency, -v.p95, -v.risk]
  }

  predicate Dominates(left: Vector, right: Vector) {
    && (forall i :: 0 <= i < 8 ==> Values(left)[i] >= Values(right)[i])
    && (exists i :: 0 <= i < 8 && Values(left)[i] > Values(right)[i])
  }

  lemma DominanceIrreflexive(v: Vector)
    ensures !Dominates(v, v)
  {
  }

  lemma DominanceTransitive(a: Vector, b: Vector, c: Vector)
    requires Dominates(a, b) && Dominates(b, c)
    ensures Dominates(a, c)
  {
    var i :| 0 <= i < 8 && Values(a)[i] > Values(b)[i];
    assert Values(b)[i] >= Values(c)[i];
  }

  lemma DominanceAsymmetric(a: Vector, b: Vector)
    requires Dominates(a, b)
    ensures !Dominates(b, a)
  {
    var i :| 0 <= i < 8 && Values(a)[i] > Values(b)[i];
  }

  /** What dominance asks, score by score. */
  lemma DominanceMeans(x: Vector, y: Vector)
    ensures Dominates(x, y) <==>
      && x.success >= y.success && x.evidence >= y.evidence && x.userValue >= y.userValue && x.stability >= y.stability
      && x.cost <= y.cost && x.latency <= y.latency && x.p95 <= y.p95 && x.risk <= y.risk
      && x != y
  {
    var v, w := Values(x), Values(y);
    assert v[0] == x.success && v[1] == x.evidence && v[2] == x.userValue && v[3] == x.stability;
    assert v[4] == -x.cost && v[5] == -x.latency && v[6] == -x.p95 && v[7] == -x.risk;
    assert w[0] == y.success && w[1] == y.evidence && w[2] == y.userValue && w[3] == y.stability;
    assert w[4] == -y.cost && w[5] == -y.latency && w[6] == -y.p95 && w[7] == -y.risk;
  }

  // ---- Novelty: one minus the closest Jaccard similarity to anybody else.

  function Similarity(a: set<int>, b: set<int>): real {
    if a + b == {} then 1.0 else |a * b| as real / |a + b| as real
  }

  lemma SimilarityInRange(a: set<int>, b: set<int>)
    ensures 0.0 <= Similarity(a, b) <= 1.0
  {
    if a + b != {} {
      assert a * b <= a + b;
      SubsetSize(a * b, a + b);
      assert |a + b| > 0;
      RatioInRange(|a * b|, |a + b|);
    }
  }

  lemma RatioInRange(k: nat, n: nat)
    requires 0 < n && k <= n
    ensures 0.0 <= k as real / n as real <= 1.0
  {
  }

  lemma {:induction false} SubsetSize<T>(a: set<T>, b: set<T>)
    requires a <= b
    ensures |a| <= |b|
  {
    assert b == a + (b - a);
  }

  ghost predicate HighestSimilarity(population: set<Candidate>, x: Candidate, m: real) {
    && (exists y :: y in population && y != x && Similarity(x.operations, y.operations) == m)
    && (forall y :: y in population && y != x ==> Similarity(x.operations, y.operations) <= m)
  }

  ghost predicate IsNovelty(population: set<Candidate>, x: Candidate, n: real) {
    if forall y :: y in population ==> y == x then n == 1.0 else HighestSimilarity(population, x, 1.0 - n)
  }

  lemma HighestExists(population: set<Candidate>, x: Candidate) returns (m: real)
    requires exists y :: y in population && y != x
    ensures HighestSimilarity(population, x, m)
    decreases |population|
  {
    var y :| y in population && y != x;
    m := Similarity(x.operations, y.operations);
    var rest := population - {y};
    if exists z :: z in rest && z != x {
      var m0 := HighestExists(rest, x);
      var z :| z in rest && z != x && Similarity(x.operations, z.operations) == m0;
      m := if m0 < m then m else m0;
    }
    forall z | z in population && z != x ensures Similarity(x.operations, z.operations) <= m {
      if z != y { assert z in rest; }
    }
  }

  lemma NoveltyExists(population: set<Candidate>, x: Candidate)
    ensures exists n :: IsNovelty(population, x, n)
  {
    if exists y :: y in population && y != x {
      var m := HighestExists(population, x);
      assert 1.0 - (1.0 - m) == m;
      assert IsNovelty(population, x, 1.0 - m);
    } else {
      assert IsNovelty(population, x, 1.0);
    }
  }

  lemma NoveltyUnique(population: set<Candidate>, x: Candidate, a: real, b: real)
    requires IsNovelty(population, x, a) && IsNovelty(population, x, b)
    ensures a == b
  {
  }

  ghost function Novelty(population: set<Candidate>, x: Candidate): (n: real)
    ensures IsNovelty(population, x, n)
  {
    NoveltyExists(population, x);
    var n :| IsNovelty(population, x, n);
    n
  }

  lemma NoveltyInRange(population: set<Candidate>, x: Candidate)
    ensures 0.0 <= Novelty(population, x) <= 1.0
  {
    var n := Novelty(population, x);
    if exists y :: y in population && y != x {
      var y :| y in population && y != x && Similarity(x.operations, y.operations) == 1.0 - n;
      SimilarityInRange(x.operations, y.operations);
    }
  }

  /** Similarity in whole numbers: shared edits against all edits. */
  lemma SimilarityMeans(a: set<int>, b: set<int>)
    ensures Similarity(a, b) * |a + b| as real == |a * b| as real
    ensures Similarity(a, b) == 1.0 <==> a == b
    ensures Similarity(a, b) == 0.0 <==> a * b == {} && a + b != {}
  {
    if a + b != {} {
      assert a * b <= a + b;
      SubsetSize(a * b, a + b);
      RatioMeans(|a * b|, |a + b|);
      if |a * b| == |a + b| {
        SameSize(a * b, a + b);
      }
      assert a == b ==> a * b == a + b;
      assert a * b == {} <==> |a * b| == 0;
    }
  }

  lemma RatioMeans(k: nat, n: nat)
    requires 0 < n
    ensures k as real / n as real * n as real == k as real
    ensures k as real / n as real == 1.0 <==> k == n
    ensures k as real / n as real == 0.0 <==> k == 0
  {
  }

  lemma SameSize<T>(a: set<T>, b: set<T>)
    requires a <= b && |a| == |b|
    ensures a == b
  {
    assert b == a + (b - a);
  }

  /** The edits two candidates share, compared with `share` of all their edits. */
  predicate ShareAtMost(x: Candidate, y: Candidate, share: real) {
    |x.operations * y.operations| as real <= share * |x.operations + y.operations| as real
  }

  predicate ShareExactly(x: Candidate, y: Candidate, share: real) {
    |x.operations * y.operations| as real == share * |x.operations + y.operations| as real
  }

  /** No other candidate shares more than `1 - novelty` of the edits, and one shares exactly that much. */
  lemma NoveltyIsTight(population: set<Candidate>, x: Candidate)
    ensures forall y :: y in population && y != x ==> ShareAtMost(x, y, 1.0 - Novelty(population, x))
    ensures (exists y :: y in population && y != x) ==>
      exists y :: y in population && y != x && ShareExactly(x, y, 1.0 - Novelty(population, x))
  {
    var share := 1.0 - Novelty(population, x);
    forall y | y in population && y != x ensures ShareAtMost(x, y, share) {
      SharesOf(x, y, share);
    }
    if exists y :: y in population && y != x {
      var y :| y in population && y != x && Similarity(x.operations, y.operations) == share;
      SharesOf(x, y, share);
    }
  }

  lemma SharesOf(x: Candidate, y: Candidate, share: real)
    ensures Similarity(x.operations, y.operations) <= share ==> ShareAtMost(x, y, share)
    ensures Similarity(x.operations, y.operations) == share ==> ShareExactly(x, y, share)
  {
    SimilarTo(x.operations, y.operations, share);
  }

  /** Novelty is zero exactly when somebody else makes the same edits, and full exactly when nobody shares any. */
  lemma NoveltyExtremes(population: set<Candidate>, x: Candidate)
    ensures Novelty(population, x) == 0.0 <==> exists y :: y in population && y != x && y.operations == x.operations
    ensures Novelty(population, x) == 1.0 <==>
      forall y :: y in population && y != x ==> x.operations * y.operations == {} && x.operations + y.operations != {}
  {
    var n := Novelty(population, x);
    forall y | y in population && y != x
      ensures y.operations == x.operations ==> n == 0.0
      ensures n == 1.0 ==> x.operations * y.operations == {} && x.operations + y.operations != {}
    {
      SimilarityMeans(x.operations, y.operations);
      SimilarityInRange(x.operations, y.operations);
      NoveltyInRange(population, x);
    }
    if exists y :: y in population && y != x {
      var y :| y in population && y != x && Similarity(x.operations, y.operations) == 1.0 - n;
      SimilarityMeans(x.operations, y.operations);
    }
  }

  lemma SimilarTo(a: set<int>, b: set<int>, share: real)
    ensures Similarity(a, b) <= share ==> |a * b| as real <= share * |a + b| as real
    ensures Similarity(a, b) == share ==> |a * b| as real == share * |a + b| as real
  {
    SimilarityMeans(a, b);
    if Similarity(a, b) <= share {
      Scaled(Similarity(a, b), share, |a + b|);
    }
  }

  lemma Scaled(s: real, t: real, n: nat)
    requires s <= t
    ensures s * n as real <= t * n as real
  {
  }

  // ---- The outcome as a function of the population as a set.

  ghost predicate UniqueIds(population: set<Candidate>) {
    forall x, y :: x in population && y in population && x.id == y.id ==> x == y
  }

  /** Among candidates with the same content, the one with the smallest id counts. */
  ghost predicate Canonical(population: set<Candidate>, x: Candidate) {
    forall y :: y in population && y.digest == x.digest ==> x.id <= y.id
  }

  predicate Passes(x: Candidate) {
    x.passed && x.clean
  }

  ghost predicate Eligible(population: set<Candidate>, x: Candidate) {
    x in population && Canonical(population, x) && Passes(x)
  }

  ghost predicate Undominated(population: set<Candidate>, x: Candidate) {
    forall y :: Eligible(population, y) ==> !Dominates(y.vector, x.vector)
  }

  ghost predicate OnFront(population: set<Candidate>, x: Candidate) {
    Eligible(population, x) && Undominated(population, x)
  }

  ghost predicate Qualified(population: set<Candidate>, policy: Policy, x: Candidate) {
    OnFront(population, x) && Novelty(population, x) >= policy.minimumNovelty
  }

  /** The ranking: novelty, success and evidence down, then the id. */
  ghost predicate Ahead(population: set<Candidate>, x: Candidate, y: Candidate) {
    var nx, ny := Novelty(population, x), Novelty(population, y);
    || nx > ny
    || (nx == ny && (x.vector.success > y.vector.success
        || (x.vector.success == y.vector.success && (x.vector.evidence > y.vector.evidence
            || (x.vector.evidence == y.vector.evidence && x.id < y.id)))))
  }

  ghost function AheadOf(population: set<Candidate>, policy: Policy, x: Candidate): set<Candidate> {
    set y | y in population && Qualified(population, policy, y) && Ahead(population, y, x)
  }

  ghost function DispositionOf(population: set<Candidate>, policy: Policy, x: Candidate): Disposition {
    if !Canonical(population, x) then Duplicate
    else if !Passes(x) then HardRejected
    else if !Undominated(population, x) then Dominated
    else if Qualified(population, policy, x) && |AheadOf(population, policy, x)| < policy.maximumSurvivors then Selected
    else Capacity
  }

  // ---- What the outcome promises.

  /** Whoever is dominated is dominated by someone on the front. */
  lemma {:induction false} DominatedByFront(population: set<Candidate>, x: Candidate, above: set<Candidate>) returns (f: Candidate)
    requires Eligible(population, x) && !Undominated(population, x)
    requires above == set y | y in population && Eligible(population, y) && Dominates(y.vector, x.vector)
    ensures OnFront(population, f) && Dominates(f.vector, x.vector)
    decreases |above|
  {
    var y :| Eligible(population, y) && Dominates(y.vector, x.vector);
    if Undominated(population, y) {
      f := y;
    } else {
      var higher := set z | z in population && Eligible(population, z) && Dominates(z.vector, y.vector);
      forall z | z in higher ensures z in above {
        DominanceTransitive(z.vector, y.vector, x.vector);
      }
      DominanceIrreflexive(y.vector);
      assert y in above && y !in higher;
      SubsetSize(higher, above - {y});
      f := DominatedByFront(population, y, higher);
      DominanceTransitive(f.vector, y.vector, x.vector);
    }
  }

  lemma EveryDominatedHasAFrontMember(population: set<Candidate>, policy: Policy, x: Candidate)
    requires x in population && DispositionOf(population, policy, x) == Dominated
    ensures exists f ::
      && f in population && OnFront(population, f) && Dominates(f.vector, x.vector)
      && DispositionOf(population, policy, f) in {Selected, Capacity}
  {
    var f := DominatedByFront(population, x, set y | y in population && Eligible(population, y) && Dominates(y.vector, x.vector));
    assert f in population && DispositionOf(population, policy, f) in {Selected, Capacity};
  }

  /** Survivors do not dominate each other. */
  lemma SelectedMutuallyNonDominated(population: set<Candidate>, policy: Policy, x: Candidate, y: Candidate)
    requires x in population && y in population
    requires DispositionOf(population, policy, x) == Selected && DispositionOf(population, policy, y) == Selected
    ensures !Dominates(x.vector, y.vector)
  {
    assert Eligible(population, x);
  }

  // ---- Reports.

  datatype Reason = DuplicateContent | ReplayFailed | ParetoDominated | NoReason | NoveltyBelowThreshold | SurvivorCapacity

  datatype Member = Member(candidate: Candidate, disposition: Disposition, rank: Option<int>, novelty: real, reason: Reason)

  ghost function MemberOf(population: set<Candidate>, policy: Policy, x: Candidate): Member {
    var n := Novelty(population, x);
    match DispositionOf(population, policy, x)
    case Duplicate => Member(x, Duplicate, None, n, DuplicateContent)
    case HardRejected => Member(x, HardRejected, None, n, ReplayFailed)
    case Dominated => Member(x, Dominated, Some(1), n, ParetoDominated)
    case Selected => Member(x, Selected, Some(0), n, NoReason)
    case Capacity => Member(x, Capacity, Some(0), n, if n < policy.minimumNovelty then NoveltyBelowThreshold else SurvivorCapacity)
  }

  /** No earlier candidate has the same content, and the replay passed without complaints. */
  ghost predicate Admissible(population: set<Candidate>, x: Candidate) {
    x in population && x.passed && x.clean && !exists y :: y in population && y.digest == x.digest && y.id < x.id
  }

  lemma AdmissibleIsEligible(population: set<Candidate>, x: Candidate)
    ensures Admissible(population, x) <==> Eligible(population, x)
  {
  }

  /** What a disposition says about the candidate, in terms of ids, digests, replays and scores. */
  lemma DispositionMeans(population: set<Candidate>, policy: Policy, x: Candidate)
    requires x in population
    ensures var d := DispositionOf(population, policy, x);
      && (d == Duplicate <==> exists y :: y in population && y.digest == x.digest && y.id < x.id)
      && (d == HardRejected <==> d != Duplicate && !(x.passed && x.clean))
      && (d == Dominated <==> Admissible(population, x) && exists y :: Admissible(population, y) && Dominates(y.vector, x.vector))
      && (d in {Selected, Capacity} <==> Admissible(population, x) && forall y :: Admissible(population, y) ==> !Dominates(y.vector, x.vector))
      && (d == Selected ==> Novelty(population, x) >= policy.minimumNovelty)
  {
    AdmissibleIsEligible(population, x);
    if y :| Eligible(population, y) && Dominates(y.vector, x.vector) {
      AdmissibleIsEligible(population, y);
    }
    forall y | Admissible(population, y) ensures Eligible(population, y) {
      AdmissibleIsEligible(population, y);
    }
  }

  /** No survivor has an admissible rival that is at least as good in every score and better in one. */
  lemma SelectedHasNoBetterRival(population: set<Candidate>, policy: Policy, x: Candidate, y: Candidate)
    requires x in population && DispositionOf(population, policy, x) == Selected && Admissible(population, y)
    requires y.vector.success >= x.vector.success && y.vector.evidence >= x.vector.evidence
    requires y.vector.userValue >= x.vector.userValue && y.vector.stability >= x.vector.stability
    requires y.vector.cost <= x.vector.cost && y.vector.latency <= x.vector.latency
    requires y.vector.p95 <= x.vector.p95 && y.vector.risk <= x.vector.risk
    ensures y.vector == x.vector
  {
    DispositionMeans(population, policy, x);
    DominanceMeans(y.vector, x.vector);
  }

  /** All candidates once, in id order. */
  ghost predicate IsListing(population: set<Candidate>, s: seq<Candidate>) {
    && (forall i, j :: 0 <= i < j < |s| ==> s[i].id < s[j].id)
    && (forall x :: x in s <==> x in population)
  }

  function Candidates(members: seq<Member>): (s: seq<Candidate>)
    ensures |s| == |members| && forall i :: 0 <= i < |s| ==> s[i] == members[i].candidate
  {
    seq(|members|, i requires 0 <= i < |members| => members[i].candidate)
  }

  ghost predicate OwnOutcome(population: set<Candidate>, policy: Policy, m: Member) {
    m == MemberOf(population, policy, m.candidate)
  }

  /** Every candidate once, in id order, each with its own outcome. */
  ghost predicate IsReport(population: set<Candidate>, policy: Policy, members: seq<Member>) {
    IsListing(population, Candidates(members)) && forall i :: 0 <= i < |members| ==> OwnOutcome(population, policy, members[i])
  }

  lemma {:induction false} SizeByEnumeration<T>(s: seq<T>, all: set<T>)
    requires forall i, j :: 0 <= i < j < |s| ==> s[i] != s[j]
    requires forall x :: x in s <==> x in all
    ensures |s| == |all|
    decreases |s|
  {
    if s == [] {
      assert all == {};
    } else {
      var last := |s| - 1;
      assert s[last] in s;
      forall x ensures x in s[..last] <==> x in all - {s[last]} {
        if x in all - {s[last]} {
          var i :| 0 <= i < |s| && s[i] == x;
          assert s[..last][i] == x;
        }
      }
      SizeByEnumeration(s[..last], all - {s[last]});
    }
  }

  /** There is only one way to list a population by id. */
  lemma {:induction false} ListingsAgree(population: set<Candidate>, a: seq<Candidate>, b: seq<Candidate>, n: nat)
    requires IsListing(population, a) && IsListing(population, b) && n <= |a| && n <= |b|
    ensures a[..n] == b[..n]
    decreases n
  {
    if n > 0 {
      ListingsAgree(population, a, b, n - 1);
      forall m | 0 <= m < n - 1 ensures a[m] == b[m] {
        assert a[..n - 1][m] == b[..n - 1][m];
      }
      assert a[n - 1] in a && b[n - 1] in b;
      var i :| 0 <= i < |b| && b[i] == a[n - 1];
      var j :| 0 <= j < |a| && a[j] == b[n - 1];
      assert a[..n] == a[..n - 1] + [a[n - 1]] && b[..n] == b[..n - 1] + [b[n - 1]];
    }
  }

  /** The report depends on the population only, not on the order in which a request lists it. */
  lemma OrderDoesNotMatter(population: set<Candidate>, policy: Policy, a: seq<Member>, b: seq<Member>)
    requires IsReport(population, policy, a) && IsReport(population, policy, b)
    ensures a == b
  {
    SizeByEnumeration(Candidates(a), population);
    SizeByEnumeration(Candidates(b), population);
    ListingsAgree(population, Candidates(a), Candidates(b), |a|);
    assert Candidates(a)[..|a|] == Candidates(a) && Candidates(b)[..|a|] == Candidates(b);
    forall i | 0 <= i < |a| ensures a[i] == b[i] {
      assert OwnOutcome(population, policy, a[i]) && OwnOutcome(population, policy, b[i]);
      assert Candidates(a)[i] == Candidates(b)[i];
    }
  }

  // ---- The ranked list.

  /** `q` lists the qualified candidates, each ahead of all later ones. */
  ghost predicate IsRanking(population: set<Candidate>, policy: Policy, q: seq<Candidate>) {
    && (forall i, j :: 0 <= i < j < |q| ==> Ahead(population, q[i], q[j]))
    && (forall x :: x in q <==> x in population && Qualified(population, policy, x))
  }

  lemma AheadAsymmetric(population: set<Candidate>, x: Candidate, y: Candidate)
    requires Ahead(population, x, y)
    ensures !Ahead(population, y, x) && x != y
  {
  }

  /** Exactly the candidates listed before `q[k]` are ahead of it. */
  lemma RankIsPosition(population: set<Candidate>, policy: Policy, q: seq<Candidate>, k: nat)
    requires IsRanking(population, policy, q) && k < |q|
    ensures |AheadOf(population, policy, q[k])| == k
  {
    var before := q[..k];
    forall y | y in before ensures y in AheadOf(population, policy, q[k]) {
      var i :| 0 <= i < |before| && before[i] == y;
      assert q[i] == y && Ahead(population, q[i], q[k]) && q[i] in q;
    }
    forall y | y in AheadOf(population, policy, q[k]) ensures y in before {
      assert y in q;
      var i :| 0 <= i < |q| && q[i] == y;
      if k < i {
        AheadAsymmetric(population, q[k], q[i]);
      }
      assert i < k ==> before[i] == y;
    }
    forall i, j | 0 <= i < j < |before| ensures before[i] != before[j] {
      AheadAsymmetric(population, q[i], q[j]);
    }
    SizeByEnumeration(before, AheadOf(population, policy, q[k]));
  }

  ghost function SelectedSet(population: set<Candidate>, policy: Policy): set<Candidate> {
    set x | x in population && DispositionOf(population, policy, x) == Selected
  }

  ghost function QualifiedSet(population: set<Candidate>, policy: Policy): set<Candidate> {
    set x | x in population && Qualified(population, policy, x)
  }

  function Min(a: nat, b: nat): nat { if a < b then a else b }

  /** Being among the first `maximumSurvivors` of the ranking is being selected. */
  lemma FirstAreSelected(population: set<Candidate>, policy: Policy, q: seq<Candidate>, x: Candidate)
    requires IsRanking(population, policy, q) && x in population
    ensures DispositionOf(population, policy, x) == Selected <==> x in q[..Min(policy.maximumSurvivors, |q|)]
  {
    var first := q[..Min(policy.maximumSurvivors, |q|)];
    if x in q {
      var i :| 0 <= i < |q| && q[i] == x;
      RankIsPosition(population, policy, q, i);
      assert i < |first| ==> first[i] == x;
      if x in first {
        var j :| 0 <= j < |first| && first[j] == x;
        RankIsPosition(population, policy, q, j);
      }
    }
  }

  /** Among the sufficiently novel, a survivor comes before everybody cut for capacity: more novel, or as novel with more
      successes, or equal in both with more evidence, or equal in all three with the smaller id. */
  lemma SurvivorsComeFirst(population: set<Candidate>, policy: Policy, q: seq<Candidate>, x: Candidate, y: Candidate)
    requires IsRanking(population, policy, q) && x in population && y in population
    requires DispositionOf(population, policy, x) == Selected
    requires DispositionOf(population, policy, y) == Capacity && Novelty(population, y) >= policy.minimumNovelty
    ensures var nx, ny := Novelty(population, x), Novelty(population, y);
      || nx > ny
      || (nx == ny && x.vector.success > y.vector.success)
      || (nx == ny && x.vector.success == y.vector.success && x.vector.evidence > y.vector.evidence)
      || (nx == ny && x.vector.success == y.vector.success && x.vector.evidence == y.vector.evidence && x.id < y.id)
  {
    var cut := Min(policy.maximumSurvivors, |q|);
    var j :| 0 <= j < |q| && q[j] == y;
    assert j < cut ==> q[..cut][j] == y;
    FirstAreSelected(population, policy, q, x);
    FirstAreSelected(population, policy, q, y);
    var i :| 0 <= i < |q[..cut]| && q[..cut][i] == x;
    assert Ahead(population, q[i], q[j]);
  }

  /** The number of survivors is the number of qualified candidates, capped. */
  lemma SurvivorCount(population: set<Candidate>, policy: Policy, q: seq<Candidate>)
    requires IsRanking(population, policy, q)
    ensures |SelectedSet(population, policy)| == Min(policy.maximumSurvivors, |QualifiedSet(population, policy)|)
  {
    forall i, j | 0 <= i < j < |q| ensures q[i] != q[j] {
      AheadAsymmetric(population, q[i], q[j]);
    }
    SizeByEnumeration(q, QualifiedSet(population, policy));
    var first := q[..Min(policy.maximumSurvivors, |q|)];
    forall x ensures x in first <==> x in SelectedSet(population, policy) {
      if x in first {
        assert x in q;
      }
      if x in population {
        FirstAreSelected(population, policy, q, x);
      }
    }
    SizeByEnumeration(first, SelectedSet(population, policy));
  }
}

module DnaSelection {
  import opened Wrappers
  import opened Sorting
  import opened SelectionRules

  datatype SelectionError = NoSurvivors

  function Population(candidates: seq<Candidate>): set<Candidate> {
    set x | x in candidates
  }

  ghost predicate DistinctIds(candidates: seq<Candidate>) {
    forall i, j :: 0 <= i < j < |candidates| ==> candidates[i].id != candidates[j].id
  }

  predicate ById(a: Candidate, b: Candidate) { a.id <= b.id }

  /** `_novelty`: one minus the largest similarity to the others. */
  method NoveltyOf(x: Candidate, candidates: seq<Candidate>) returns (n: real)
    requires x in candidates
    ensures n == Novelty(Population(candidates), x)
  {
    ghost var population := Population(candidates);
    var highest := 0.0;
    var others := false;
    for i := 0 to |candidates|
      invariant others <==> exists j :: 0 <= j < i && candidates[j] != x
      invariant others ==> exists j :: 0 <= j < i && candidates[j] != x && Similarity(x.operations, candidates[j].operations) == highest
      invariant forall j :: 0 <= j < i && candidates[j] != x ==> Similarity(x.operations, candidates[j].operations) <= highest
    {
      if candidates[i] != x {
        var s := Similarity(x.operations, candidates[i].operations);
        highest := if others && s < highest then highest else s;
        others := true;
      }
    }
    n := if others then 1.0 - highest else 1.0;
    assert IsNovelty(population, x, n) by {
      if others {
        var j :| 0 <= j < |candidates| && candidates[j] != x && Similarity(x.operations, candidates[j].operations) == highest;
        assert candidates[j] in population;
        assert HighestSimilarity(population, x, highest);
        assert 1.0 - n == highest;
      }
    }
    NoveltyUnique(population, x, n, Novelty(population, x));
  }

  ghost predicate NoveltyKnown(population: set<Candidate>, novelty: map<int, real>) {
    forall x :: x in population ==> x.id in novelty && novelty[x.id] == Novelty(population, x)
  }

  method NoveltyMap(candidates: seq<Candidate>) returns (novelty: map<int, real>)
    requires DistinctIds(candidates)
    ensures NoveltyKnown(Population(candidates), novelty)
  {
    novelty := map[];
    for i := 0 to |candidates|
      invariant forall j :: 0 <= j < i ==>
        candidates[j].id in novelty && novelty[candidates[j].id] == Novelty(Population(candidates), candidates[j])
    {
      var n := NoveltyOf(candidates[i], candidates);
      novelty := novelty[candidates[i].id := n];
    }
  }

  // ---- Duplicates, rejects and the eligible.

  datatype Sifted = Sifted(canonical: map<int, Candidate>, duplicates: set<int>, rejected: set<int>, eligible: seq<Candidate>)

  ghost predicate Earlier(ordered: seq<Candidate>, j: nat)
    requires j < |ordered|
  {
    exists k :: 0 <= k < j && ordered[k].digest == ordered[j].digest
  }

  ghost predicate GroupedRight(ordered: seq<Candidate>, j: nat, s: Sifted)
    requires j < |ordered|
  {
    var x := ordered[j];
    && (x.id in s.duplicates <==> Earlier(ordered, j))
    && (x.id in s.rejected <==> !Earlier(ordered, j) && !Passes(x))
    && (x in s.eligible <==> !Earlier(ordered, j) && Passes(x))
  }

  ghost predicate HasDigest(ordered: seq<Candidate>, i: nat, g: int)
    requires i <= |ordered|
  {
    exists j :: 0 <= j < i && ordered[j].digest == g
  }

  /** What the groups built from the first `i` candidates satisfy. */
  ghost predicate SiftedSoFar(ordered: seq<Candidate>, i: nat, s: Sifted)
    requires i <= |ordered|
  {
    && (forall g :: g in s.canonical <==> HasDigest(ordered, i, g))
    && (forall j :: 0 <= j < i ==> GroupedRight(ordered, j, s))
    && (forall j :: i <= j < |ordered| ==> ordered[j].id !in s.duplicates && ordered[j].id !in s.rejected)
    && (forall x :: x in s.eligible ==> x in ordered[..i])
    && Distinct(s.eligible)
  }

  function Placed(s: Sifted, x: Candidate): Sifted {
    if x.digest in s.canonical then s.(duplicates := s.duplicates + {x.id})
    else if Passes(x) then s.(canonical := s.canonical[x.digest := x], eligible := s.eligible + [x])
    else s.(canonical := s.canonical[x.digest := x], rejected := s.rejected + {x.id})
  }

  lemma SiftStep(ordered: seq<Candidate>, i: nat, s: Sifted)
    requires DistinctIds(ordered) && i < |ordered| && SiftedSoFar(ordered, i, s)
    ensures SiftedSoFar(ordered, i + 1, Placed(s, ordered[i]))
  {
    var x, t := ordered[i], Placed(s, ordered[i]);
    assert ordered[..i + 1] == ordered[..i] + [x];
    forall k | 0 <= k < i ensures ordered[k] != x {
      assert ordered[k].id != ordered[i].id;
    }
    assert x !in s.eligible;
    assert x.digest in s.canonical <==> Earlier(ordered, i) by {
      assert HasDigest(ordered, i, x.digest) <==> Earlier(ordered, i);
    }
    forall g ensures g in t.canonical <==> HasDigest(ordered, i + 1, g) {
      assert HasDigest(ordered, i + 1, g) <==> HasDigest(ordered, i, g) || g == x.digest;
    }
    forall j | 0 <= j < i + 1 ensures GroupedRight(ordered, j, t) {
      if j < i {
        assert GroupedRight(ordered, j, s) && ordered[j].id != x.id;
      }
    }
  }

  /** The first pass of `_select`: duplicates of earlier content, rejects of the hard gate, and the rest. */
  method Sift(ordered: seq<Candidate>) returns (s: Sifted)
    requires DistinctIds(ordered)
    ensures SiftedSoFar(ordered, |ordered|, s)
  {
    s := Sifted(map[], {}, {}, []);
    for i := 0 to |ordered|
      invariant SiftedSoFar(ordered, i, s)
    {
      SiftStep(ordered, i, s);
      var x := ordered[i];
      if x.digest in s.canonical {
        s := s.(duplicates := s.duplicates + {x.id});
      } else {
        s := s.(canonical := s.canonical[x.digest := x]);
        if Passes(x) {
          s := s.(eligible := s.eligible + [x]);
        } else {
          s := s.(rejected := s.rejected + {x.id});
        }
      }
    }
  }

  ghost predicate OrderedById(ordered: seq<Candidate>) {
    forall i, j :: 0 <= i < j < |ordered| ==> ordered[i].id < ordered[j].id
  }

  /** In id order, an earlier candidate with the same content is what makes one not canonical. */
  lemma EarlierIsDuplicate(ordered: seq<Candidate>, j: nat)
    requires OrderedById(ordered) && j < |ordered|
    ensures Earlier(ordered, j) <==> !Canonical(Population(ordered), ordered[j])
  {
    var population := Population(ordered);
    if Earlier(ordered, j) {
      var k :| 0 <= k < j && ordered[k].digest == ordered[j].digest;
      assert ordered[k] in population;
    } else {
      forall y | y in population && y.digest == ordered[j].digest ensures ordered[j].id <= y.id {
        var k :| 0 <= k < |ordered| && ordered[k] == y;
      }
    }
  }

  lemma SiftedGroups(ordered: seq<Candidate>, s: Sifted, x: Candidate)
    requires OrderedById(ordered) && SiftedSoFar(ordered, |ordered|, s) && x in ordered
    ensures var population := Population(ordered);
      && (x.id in s.duplicates <==> !Canonical(population, x))
      && (x.id in s.rejected <==> Canonical(population, x) && !Passes(x))
      && (x in s.eligible <==> Eligible(population, x))
  {
    var j :| 0 <= j < |ordered| && ordered[j] == x;
    assert GroupedRight(ordered, j, s);
    EarlierIsDuplicate(ordered, j);
  }

  /** Keep the elements satisfying `keep`, in order. */
  function Filter(s: seq<Candidate>, keep: Candidate -> bool): (r: seq<Candidate>)
    ensures forall x :: x in r <==> x in s && keep(x)
  {
    if s == [] then []
    else
      var rest := Filter(s[..|s| - 1], keep);
      assert s == s[..|s| - 1] + [s[|s| - 1]];
      if keep(s[|s| - 1]) then rest + [s[|s| - 1]] else rest
  }

  lemma {:induction false} FilterDistinct(s: seq<Candidate>, keep: Candidate -> bool)
    requires Distinct(s)
    ensures Distinct(Filter(s, keep))
    decreases |s|
  {
    if s != [] {
      FilterDistinct(s[..|s| - 1], keep);
      assert s[|s| - 1] !in s[..|s| - 1];
    }
  }

  lemma {:induction false} FilterSorted(s: seq<Candidate>, keep: Candidate -> bool, le: (Candidate, Candidate) -> bool)
    requires SortedBy(s, le)
    ensures SortedBy(Filter(s, keep), le)
    decreases |s|
  {
    if s != [] {
      var init, last := s[..|s| - 1], s[|s| - 1];
      FilterSorted(init, keep, le);
      forall x | x in Filter(init, keep) ensures le(x, last) {
        assert x in init;
        var i :| 0 <= i < |init| && init[i] == x;
        assert le(s[i], s[|s| - 1]);
      }
    }
  }

  // ---- Ranking and dispositions.

  function NoveltyIn(novelty: map<int, real>, x: Candidate): real {
    if x.id in novelty then novelty[x.id] else 0.0
  }

  /** The sort key: novelty, success and evidence down, then the id. */
  predicate RankedAhead(novelty: map<int, real>, x: Candidate, y: Candidate) {
    var nx, ny := NoveltyIn(novelty, x), NoveltyIn(novelty, y);
    || nx > ny
    || (nx == ny && (x.vector.success > y.vector.success
        || (x.vector.success == y.vector.success && (x.vector.evidence > y.vector.evidence
            || (x.vector.evidence == y.vector.evidence && x.id < y.id)))))
  }

  function ByRank(novelty: map<int, real>): (Candidate, Candidate) -> bool {
    (x, y) => !RankedAhead(novelty, y, x)
  }

  function NovelEnough(novelty: map<int, real>, policy: Policy): Candidate -> bool {
    (x: Candidate) => NoveltyIn(novelty, x) >= policy.minimumNovelty
  }

  function NobodyDominates(eligible: seq<Candidate>): Candidate -> bool {
    (x: Candidate) => !exists y: Candidate :: y in eligible && Dominates(y.vector, x.vector)
  }

  lemma FrontIsFront(population: set<Candidate>, eligible: seq<Candidate>, front: seq<Candidate>)
    requires forall x :: x in eligible <==> Eligible(population, x)
    requires front == Filter(eligible, NobodyDominates(eligible))
    ensures forall x :: x in front <==> OnFront(population, x)
  {
  }

  lemma ByRankTotal(novelty: map<int, real>)
    ensures TotalPreorder(ByRank(novelty))
  {
  }

  /** Sorting the front and dropping the insufficiently novel gives the ranking. */
  lemma QualifiedIsRanking(population: set<Candidate>, policy: Policy, novelty: map<int, real>, front: seq<Candidate>, q: seq<Candidate>)
    requires UniqueIds(population) && NoveltyKnown(population, novelty)
    requires Distinct(front) && forall x :: x in front <==> OnFront(population, x)
    requires q == Filter(Sort(front, ByRank(novelty)), NovelEnough(novelty, policy))
    ensures IsRanking(population, policy, q)
  {
    var le := ByRank(novelty);
    var ranked := Sort(front, le);
    ByRankTotal(novelty);
    SortIsSorted(front, le);
    DistinctPermutation(front, ranked);
    FilterSorted(ranked, NovelEnough(novelty, policy), le);
    FilterDistinct(ranked, NovelEnough(novelty, policy));
    forall x ensures x in q <==> x in population && Qualified(population, policy, x) {
      assert x in ranked <==> x in multiset(ranked);
      assert x in front <==> x in multiset(front);
    }
    forall i, j | 0 <= i < j < |q| ensures Ahead(population, q[i], q[j]) {
      assert q[i] in q && q[j] in q && q[i] != q[j] && le(q[i], q[j]);
      assert q[i].id != q[j].id;
    }
  }

  lemma OrderedFacts(candidates: seq<Candidate>, ordered: seq<Candidate>)
    requires DistinctIds(candidates) && ordered == Sort(candidates, ById)
    ensures OrderedById(ordered) && DistinctIds(ordered) && Population(ordered) == Population(candidates) && UniqueIds(Population(candidates))
  {
    assert TotalPreorder(ById);
    SortIsSorted(candidates, ById);
    DistinctPermutation(candidates, ordered);
    forall x ensures x in ordered <==> x in candidates {
      assert x in ordered <==> x in multiset(ordered);
      assert x in candidates <==> x in multiset(candidates);
    }
    forall i, j | 0 <= i < j < |ordered| ensures ordered[i].id < ordered[j].id {
      assert ordered[i] in ordered && ordered[j] in ordered && ordered[i] != ordered[j] && ById(ordered[i], ordered[j]);
      UniqueInList(candidates, ordered[i], ordered[j]);
    }
    forall x, y | x in Population(candidates) && y in Population(candidates) && x.id == y.id ensures x == y {
      UniqueInList(candidates, x, y);
    }
  }

  lemma UniqueInList(candidates: seq<Candidate>, x: Candidate, y: Candidate)
    requires DistinctIds(candidates) && x in candidates && y in candidates
    ensures x.id == y.id <==> x == y
  {
    var i :| 0 <= i < |candidates| && candidates[i] == x;
    var j :| 0 <= j < |candidates| && candidates[j] == y;
  }

  /** The groups the second pass of `_select` looks candidates up in. */
  datatype Groups = Groups(duplicates: set<int>, rejected: set<int>, front: seq<Candidate>, selected: set<int>)

  ghost predicate GroupsRight(population: set<Candidate>, policy: Policy, g: Groups, x: Candidate) {
    && (x.id in g.duplicates <==> !Canonical(population, x))
    && (x.id in g.rejected <==> Canonical(population, x) && !Passes(x))
    && (x in g.front <==> OnFront(population, x))
    && (x.id in g.selected <==> DispositionOf(population, policy, x) == Selected)
  }

  function Judge(policy: Policy, g: Groups, x: Candidate, n: real): Member {
    if x.id in g.duplicates then Member(x, Duplicate, None, n, DuplicateContent)
    else if x.id in g.rejected then Member(x, HardRejected, None, n, ReplayFailed)
    else if x !in g.front then Member(x, Dominated, Some(1), n, ParetoDominated)
    else if x.id in g.selected then Member(x, Selected, Some(0), n, NoReason)
    else Member(x, Capacity, Some(0), n, if n < policy.minimumNovelty then NoveltyBelowThreshold else SurvivorCapacity)
  }

  lemma JudgeRight(population: set<Candidate>, policy: Policy, novelty: map<int, real>, g: Groups, x: Candidate)
    requires x in population && GroupsRight(population, policy, g, x) && NoveltyKnown(population, novelty)
    ensures OwnOutcome(population, policy, Judge(policy, g, x, NoveltyIn(novelty, x)))
  {
  }

  ghost predicate JudgedSoFar(population: set<Candidate>, policy: Policy, ordered: seq<Candidate>, members: seq<Member>) {
    && |members| <= |ordered|
    && forall j :: 0 <= j < |members| ==> members[j].candidate == ordered[j] && OwnOutcome(population, policy, members[j])
  }

  lemma JudgedStep(population: set<Candidate>, policy: Policy, ordered: seq<Candidate>, members: seq<Member>, m: Member)
    requires JudgedSoFar(population, policy, ordered, members) && |members| < |ordered|
    requires m.candidate == ordered[|members|] && OwnOutcome(population, policy, m)
    ensures JudgedSoFar(population, policy, ordered, members + [m])
  {
  }

  /** Everything `_select` computes before it writes the members. */
  method Group(candidates: seq<Candidate>, ordered: seq<Candidate>, policy: Policy, novelty: map<int, real>) returns (g: Groups, ghost q: seq<Candidate>)
    requires DistinctIds(candidates) && ordered == Sort(candidates, ById)
    requires NoveltyKnown(Population(candidates), novelty)
    ensures forall x :: x in ordered ==> GroupsRight(Population(candidates), policy, g, x)
    ensures IsRanking(Population(candidates), policy, q)
  {
    ghost var population := Population(candidates);
    OrderedFacts(candidates, ordered);
    var s := Sift(ordered);
    forall x | x in ordered
      ensures (x.id in s.duplicates <==> !Canonical(population, x)) && (x.id in s.rejected <==> Canonical(population, x) && !Passes(x))
      ensures x in s.eligible <==> Eligible(population, x)
    {
      SiftedGroups(ordered, s, x);
    }
    assert forall x :: x in s.eligible ==> x in ordered by {
      assert ordered[..|ordered|] == ordered;
    }
    var eligible := s.eligible;
    var front := Filter(eligible, NobodyDominates(eligible));
    FilterDistinct(eligible, NobodyDominates(eligible));
    FrontIsFront(population, eligible, front);
    var ranked := Sort(front, ByRank(novelty));
    var qualified := Filter(ranked, NovelEnough(novelty, policy));
    QualifiedIsRanking(population, policy, novelty, front, qualified);
    var first := qualified[..Min(policy.maximumSurvivors, |qualified|)];
    var selected := set x | x in first :: x.id;
    g := Groups(s.duplicates, s.rejected, front, selected);
    q := qualified;
    forall x | x in ordered ensures GroupsRight(population, policy, g, x) {
      assert x in Population(ordered);
      FirstAreSelected(population, policy, qualified, x);
      SelectedById(population, first, x);
    }
  }

  lemma SelectedById(population: set<Candidate>, first: seq<Candidate>, x: Candidate)
    requires UniqueIds(population) && x in population && forall y :: y in first ==> y in population
    ensures x.id in (set y | y in first :: y.id) <==> x in first
  {
  }

  /** The second pass of `_select`. */
  method JudgeAll(ordered: seq<Candidate>, policy: Policy, g: Groups, novelty: map<int, real>) returns (members: seq<Member>)
    requires OrderedById(ordered) && NoveltyKnown(Population(ordered), novelty)
    requires forall x :: x in ordered ==> GroupsRight(Population(ordered), policy, g, x)
    ensures IsReport(Population(ordered), policy, members)
  {
    ghost var population := Population(ordered);
    members := [];
    for i := 0 to |ordered|
      invariant |members| == i && JudgedSoFar(population, policy, ordered, members)
    {
      var m := Judge(policy, g, ordered[i], NoveltyIn(novelty, ordered[i]));
      JudgeRight(population, policy, novelty, g, ordered[i]);
      JudgedStep(population, policy, ordered, members, m);
      members := members + [m];
    }
    ReportBuilt(population, policy, ordered, members);
  }

  /** `_select`: fails exactly when nobody qualifies, and otherwise reports the outcome the population determines. */
  method Select(candidates: seq<Candidate>, policy: Policy) returns (r: Result<seq<Member>, SelectionError>)
    requires policy.Valid() && DistinctIds(candidates)
    ensures r.Ok? <==> QualifiedSet(Population(candidates), policy) != {}
    ensures r.Ok? ==> IsReport(Population(candidates), policy, r.value)
    ensures r.Ok? ==> |SelectedSet(Population(candidates), policy)| == Min(policy.maximumSurvivors, |QualifiedSet(Population(candidates), policy)|)
  {
    ghost var population := Population(candidates);
    var novelty := NoveltyMap(candidates);
    var ordered := Sort(candidates, ById);
    OrderedFacts(candidates, ordered);
    var g, q := Group(candidates, ordered, policy, novelty);
    SurvivorCount(population, policy, q);
    var members := JudgeAll(ordered, policy, g, novelty);
    SomebodySelected(population, policy, members);
    if !exists i :: 0 <= i < |members| && members[i].disposition == Selected {
      return Err(NoSurvivors);
    }
    return Ok(members);
  }

  /** A report in plain terms: who counts as what, and why. */
  lemma ReportMeans(population: set<Candidate>, policy: Policy, members: seq<Member>, i: nat)
    requires IsReport(population, policy, members) && i < |members|
    ensures var m := members[i]; var x := m.candidate;
      && x in population && m.novelty == Novelty(population, x)
      && (m.disposition == Duplicate <==> exists y :: y in population && y.digest == x.digest && y.id < x.id)
      && (m.disposition == HardRejected <==> m.disposition != Duplicate && !(x.passed && x.clean))
      && (m.disposition == Dominated <==> Admissible(population, x) && exists y :: Admissible(population, y) && Dominates(y.vector, x.vector))
      && (m.disposition == Selected ==> m.novelty >= policy.minimumNovelty)
      && (m.rank == None <==> m.disposition in {Duplicate, HardRejected}) && (m.rank == Some(1) <==> m.disposition == Dominated)
      && (m.reason == NoveltyBelowThreshold <==> m.disposition == Capacity && m.novelty < policy.minimumNovelty)
      && (m.reason == NoReason <==> m.disposition == Selected)
  {
    assert Candidates(members)[i] in Candidates(members);
    assert OwnOutcome(population, policy, members[i]);
    DispositionMeans(population, policy, members[i].candidate);
  }

  lemma ReportBuilt(population: set<Candidate>, policy: Policy, ordered: seq<Candidate>, members: seq<Member>)
    requires OrderedById(ordered) && population == Population(ordered) && |members| == |ordered|
    requires JudgedSoFar(population, policy, ordered, members)
    ensures IsReport(population, policy, members)
  {
    assert Candidates(members) == ordered;
  }

  lemma SomebodySelected(population: set<Candidate>, policy: Policy, members: seq<Member>)
    requires IsReport(population, policy, members) && policy.Valid()
    requires |SelectedSet(population, policy)| == Min(policy.maximumSurvivors, |QualifiedSet(population, policy)|)
    ensures (exists i :: 0 <= i < |members| && members[i].disposition == Selected) <==> QualifiedSet(population, policy) != {}
  {
    var chosen := SelectedSet(population, policy);
    if i :| 0 <= i < |members| && members[i].disposition == Selected {
      assert OwnOutcome(population, policy, members[i]);
      assert Candidates(members)[i] in population;
      assert members[i].candidate in chosen;
    }
    if QualifiedSet(population, policy) != {} {
      assert |chosen| > 0;
      var x :| x in chosen;
      assert x in Candidates(members);
      var i :| 0 <= i < |members| && members[i].candidate == x;
      assert OwnOutcome(population, policy, members[i]);
      assert members[i].disposition == Selected;
    }
  }
}
