// domain_sdk/factor_fsa.py: windowed subtree statistics and the versioned ban list they feed.
// A skeleton key is an integer ordered like the rendered string; `render` gives the key of an operator chain.

module FsaStatistics {
  import opened Sorting

  /** A chain of operators ending in a field; its hash stands for the canonical digest. */
  datatype Definition = Definition(ops: seq<int>, windows: seq<int>, hash: int)

  predicate WellFormed(d: Definition) { |d.windows| == |d.ops| }

  /** One round: how often each skeleton occurred, how often in an accepted definition, with which windows. */
  datatype Record = Record(counts: map<int, nat>, accepts: map<int, nat>, variants: map<int, set<seq<int>>>)

  predicate DiffersBelow(render: seq<int> -> int, ops: seq<int>, i: nat) {
    0 < i <= |ops| ==> render(ops) != render(ops[i..])
  }

  /** No chain has the key of one of its own proper subtrees. Unrelated chains may share a key. */
  ghost predicate Nested(render: seq<int> -> int) {
    forall ops: seq<int>, i: nat {:trigger DiffersBelow(render, ops, i)} :: DiffersBelow(render, ops, i)
  }

  /** The rendered skeleton, where names are operator names. */
  function Rendered(names: seq<string>): string {
    if names == [] then "(field)" else "(" + names[0] + " " + Rendered(names[1..]) + ")"
  }

  /** Whatever the operators are called, a subtree is rendered shorter than what contains it, so keys are nested. */
  lemma {:induction false} RenderedShorter(names: seq<string>, i: nat)
    requires 0 < i <= |names|
    ensures |Rendered(names[i..])| < |Rendered(names)|
  {
    if i > 1 {
      RenderedShorter(names[1..], i - 1);
      assert names[1..][i - 1..] == names[i..];
    }
  }

  /** The keys of all operator subtrees, the root first. */
  function SubtreeKeys(render: seq<int> -> int, ops: seq<int>): (keys: seq<int>)
    ensures |keys| == |ops|
    ensures forall i :: 0 <= i < |keys| ==> keys[i] == render(ops[i..])
  {
    if ops == [] then [] else [render(ops)] + SubtreeKeys(render, ops[1..])
  }

  /** Different subtrees of one definition have different keys. */
  lemma SubtreeKeysDistinct(render: seq<int> -> int, ops: seq<int>)
    requires Nested(render)
    ensures Distinct(SubtreeKeys(render, ops))
  {
    var keys := SubtreeKeys(render, ops);
    forall i, j | 0 <= i < j < |keys| ensures keys[i] != keys[j] {
      SuffixDiffers(render, ops, i, j);
    }
  }

  lemma SuffixDiffers(render: seq<int> -> int, ops: seq<int>, i: nat, j: nat)
    requires Nested(render) && i < j <= |ops|
    ensures render(ops[i..]) != render(ops[j..])
  {
    assert ops[i..][j - i..] == ops[j..];
    assert DiffersBelow(render, ops[i..], j - i);
  }

  function Get(m: map<int, nat>, s: int): nat {
    if s in m then m[s] else 0
  }

  // ---- What a record counts.

  /** In how many definitions `s` occurs. */
  function Occurrences(render: seq<int> -> int, defs: seq<Definition>, s: int): nat {
    if defs == [] then 0
    else Occurrences(render, defs[..|defs| - 1], s) + if s in SubtreeKeys(render, defs[|defs| - 1].ops) then 1 else 0
  }

  /** In how many accepted ones. */
  function Acceptances(render: seq<int> -> int, defs: seq<Definition>, accepted: set<int>, s: int): nat {
    if defs == [] then 0
    else
      var d := defs[|defs| - 1];
      Acceptances(render, defs[..|defs| - 1], accepted, s) + if s in SubtreeKeys(render, d.ops) && d.hash in accepted then 1 else 0
  }

  function Signatures(render: seq<int> -> int, defs: seq<Definition>, s: int): set<seq<int>> {
    set i | 0 <= i < |defs| && s in SubtreeKeys(render, defs[i].ops) :: defs[i].windows
  }

  ghost predicate CountsAt(render: seq<int> -> int, defs: seq<Definition>, accepted: set<int>, r: Record, s: int) {
    && Get(r.counts, s) == Occurrences(render, defs, s) && (s in r.counts <==> Get(r.counts, s) > 0)
    && Get(r.accepts, s) == Acceptances(render, defs, accepted, s) && (s in r.accepts <==> Get(r.accepts, s) > 0)
    && (s in r.variants <==> s in r.counts) && (s in r.variants ==> r.variants[s] == Signatures(render, defs, s))
  }

  /** The record of one batch of definitions. */
  ghost predicate Counts(render: seq<int> -> int, defs: seq<Definition>, accepted: set<int>, r: Record) {
    forall s {:trigger CountsAt(render, defs, accepted, r, s)} :: CountsAt(render, defs, accepted, r, s)
  }

  lemma {:induction false} AcceptedAreCounted(render: seq<int> -> int, defs: seq<Definition>, accepted: set<int>, s: int)
    ensures Acceptances(render, defs, accepted, s) <= Occurrences(render, defs, s)
    decreases |defs|
  {
    if defs != [] {
      AcceptedAreCounted(render, defs[..|defs| - 1], accepted, s);
    }
  }

  // ---- Sums over a dictionary's values.

  function SumMap(m: map<int, nat>): nat
    decreases |m|
  {
    if m.Keys == {} then 0
    else
      var k := Minimum(m.Keys);
      KeysShrink(m, k);
      m[k] + SumMap(m - {k})
  }

  lemma KeysShrink(m: map<int, nat>, k: int)
    requires k in m
    ensures |m - {k}| < |m|
  {
    var r := m - {k};
    assert r.Keys == m.Keys - {k};
    assert |r.Keys| == |r| && |m.Keys| == |m|;
  }

  lemma MinimumStays(s: set<int>, t: set<int>)
    requires s != {} && t <= s && Minimum(s) in t
    ensures Minimum(t) == Minimum(s)
  {
  }

  lemma {:induction false} SumRemove(m: map<int, nat>, k: int)
    requires k in m
    ensures SumMap(m) == m[k] + SumMap(m - {k})
    decreases |m|
  {
    var first := Minimum(m.Keys);
    if first != k {
      KeysShrink(m, first);
      SumRemove(m - {first}, k);
      MinimumStays(m.Keys, (m - {k}).Keys);
      assert (m - {k}) - {first} == (m - {first}) - {k};
    }
  }

  lemma SumUpdate(m: map<int, nat>, k: int, v: nat)
    ensures SumMap(m[k := v]) == SumMap(m) - Get(m, k) + v
  {
    var n := m[k := v];
    SumRemove(n, k);
    if k in m {
      SumRemove(m, k);
      assert n - {k} == m - {k};
    } else {
      assert n - {k} == m;
    }
  }

  // ---- The window.

  function WindowCount(window: seq<Record>, s: int): nat {
    if window == [] then 0 else WindowCount(window[..|window| - 1], s) + Get(window[|window| - 1].counts, s)
  }

  function WindowAccepts(window: seq<Record>, s: int): nat {
    if window == [] then 0 else WindowAccepts(window[..|window| - 1], s) + Get(window[|window| - 1].accepts, s)
  }

  function WindowTotal(window: seq<Record>): nat {
    if window == [] then 0 else WindowTotal(window[..|window| - 1]) + SumMap(window[|window| - 1].counts)
  }

  /** The variants of `s` seen anywhere in the window. */
  function SeenVariants(window: seq<Record>, s: int): set<seq<int>> {
    set i, v | 0 <= i < |window| && s in window[i].variants && v in window[i].variants[s] :: v
  }

  /** The dictionary sum of two rounds. */
  function Merged(a: map<int, nat>, b: map<int, nat>): map<int, nat> {
    map s | s in a.Keys + b.Keys :: Get(a, s) + Get(b, s)
  }

  lemma MergedGet(a: map<int, nat>, b: map<int, nat>, s: int)
    ensures Get(Merged(a, b), s) == Get(a, s) + Get(b, s)
    ensures s in Merged(a, b) <==> s in a || s in b
  {
  }

  lemma MergedStep(a: map<int, nat>, b: map<int, nat>, k: int)
    requires k in b
    ensures Merged(a, b) == Merged(a, b - {k})[k := Get(a, k) + b[k]]
    ensures Get(Merged(a, b - {k}), k) == Get(a, k)
  {
  }

  /** Adding one more entry of `b`. */
  lemma MergedSumStep(a: map<int, nat>, b: map<int, nat>, k: int)
    requires k in b && SumMap(Merged(a, b - {k})) == SumMap(a) + SumMap(b - {k})
    ensures SumMap(Merged(a, b)) == SumMap(a) + SumMap(b)
  {
    var x, v := Merged(a, b - {k}), Get(a, k) + b[k];
    MergedStep(a, b, k);
    assert SumMap(x[k := v]) == SumMap(x) - Get(x, k) + v by { SumUpdate(x, k, v); }
    SumRemove(b, k);
  }

  lemma MergedEmpty(a: map<int, nat>, b: map<int, nat>)
    requires b.Keys == {}
    ensures Merged(a, b) == a && SumMap(b) == 0
  {
  }

  lemma {:induction false} MergedSum(a: map<int, nat>, b: map<int, nat>)
    ensures SumMap(Merged(a, b)) == SumMap(a) + SumMap(b)
    decreases |b|
  {
    EmptyOrInhabited(b.Keys);
    if b.Keys == {} {
      MergedEmpty(a, b);
    } else {
      var k :| k in b.Keys;
      KeysShrink(b, k);
      MergedSum(a, b - {k});
      MergedSumStep(a, b, k);
    }
  }

  // ---- Shares and acceptance rates are fractions.

  lemma {:induction false} EntryWithinSum(m: map<int, nat>, s: int)
    ensures Get(m, s) <= SumMap(m)
  {
    if s in m {
      SumRemove(m, s);
    }
  }

  /** Nothing is accepted more often than it occurs, nor occurs more often than there are observations. */
  ghost predicate FairAt(window: seq<Record>, s: int) {
    WindowAccepts(window, s) <= WindowCount(window, s) <= WindowTotal(window)
  }

  /** The record of some batch of definitions. */
  ghost predicate OfBatch(render: seq<int> -> int, r: Record) {
    exists defs, accepted :: Counts(render, defs, accepted, r)
  }

  lemma {:induction false} WindowIsFair(render: seq<int> -> int, window: seq<Record>, s: int)
    requires forall i :: 0 <= i < |window| ==> OfBatch(render, window[i])
    ensures FairAt(window, s)
  {
    if window != [] {
      var r := window[|window| - 1];
      WindowIsFair(render, window[..|window| - 1], s);
      var defs, accepted :| Counts(render, defs, accepted, r);
      assert CountsAt(render, defs, accepted, r, s);
      AcceptedAreCounted(render, defs, accepted, s);
      EntryWithinSum(r.counts, s);
    }
  }

  function LastRounds(rounds: seq<Record>, n: nat): seq<Record> {
    if |rounds| <= n then rounds else rounds[|rounds| - n..]
  }
}

/** The versioned ban list. */
module BanList {
  import opened Wrappers

  datatype Reason = Dominant | Manual(text: string)

  datatype Ban = Ban(skeleton: int, reason: Reason, version: nat, bannedRound: nat, share: real, acceptRate: real,
                     valueReturned: bool, releasedRound: Option<nat>)

  datatype Book = Book(history: seq<Ban>, active: map<int, Ban>, streak: map<int, nat>, next: nat)

  /** Versions are 1..n in issue order, and the active map is exactly the unreleased part of the history. */
  ghost predicate BookOk(b: Book) {
    && b.next == |b.history| + 1
    && (forall i :: 0 <= i < |b.history| ==> b.history[i].version == i + 1)
    && (forall s :: s in b.active ==> Listed(b, s))
    && (forall i :: 0 <= i < |b.history| && b.history[i].releasedRound.None? ==> Held(b, b.history[i]))
  }

  ghost predicate Listed(b: Book, s: int)
    requires s in b.active
  {
    var ban := b.active[s];
    ban.skeleton == s && ban.releasedRound.None? && 1 <= ban.version <= |b.history| && b.history[ban.version - 1] == ban
  }

  ghost predicate Held(b: Book, ban: Ban) {
    ban.skeleton in b.active && b.active[ban.skeleton] == ban
  }

  /** At most one ban per skeleton is unreleased. */
  lemma OneActivePerSkeleton(b: Book, i: nat, j: nat)
    requires BookOk(b) && i < |b.history| && j < |b.history|
    requires b.history[i].releasedRound.None? && b.history[j].releasedRound.None? && b.history[i].skeleton == b.history[j].skeleton
    ensures i == j
  {
    assert Held(b, b.history[i]) && Held(b, b.history[j]);
  }

  lemma ActiveIsUnreleased(b: Book, s: int)
    requires BookOk(b)
    ensures s in b.active <==> exists i :: 0 <= i < |b.history| && b.history[i].skeleton == s && b.history[i].releasedRound.None?
  {
    if s in b.active {
      assert Listed(b, s);
      assert b.history[b.active[s].version - 1].skeleton == s;
    }
    if i :| 0 <= i < |b.history| && b.history[i].skeleton == s && b.history[i].releasedRound.None? {
      assert Held(b, b.history[i]);
    }
  }

  function Issued(b: Book, ban: Ban): Book {
    Book(b.history + [ban], b.active[ban.skeleton := ban], b.streak[ban.skeleton := 0], b.next + 1)
  }

  lemma IssuedKeepsBook(b: Book, ban: Ban)
    requires BookOk(b) && ban.skeleton !in b.active && ban.version == b.next && ban.releasedRound.None?
    ensures BookOk(Issued(b, ban))
  {
    var t := Issued(b, ban);
    forall s | s in t.active ensures Listed(t, s) {
      if s != ban.skeleton {
        assert Listed(b, s);
      }
    }
    forall i | 0 <= i < |t.history| && t.history[i].releasedRound.None? ensures Held(t, t.history[i]) {
      if i < |b.history| {
        assert Held(b, b.history[i]);
      }
    }
  }

  function RetiredBan(ban: Ban, reason: Reason, valueReturned: bool, round: nat): Ban {
    ban.(reason := reason, valueReturned := ban.valueReturned || valueReturned, releasedRound := Some(round))
  }

  function Replaced(history: seq<Ban>, ban: Ban, replacement: Ban): (h: seq<Ban>)
    ensures |h| == |history|
    ensures forall i :: 0 <= i < |h| ==>
      h[i] == if history[i].version == ban.version && history[i].skeleton == ban.skeleton then replacement else history[i]
  {
    seq(|history|, i requires 0 <= i < |history| =>
      if history[i].version == ban.version && history[i].skeleton == ban.skeleton then replacement else history[i])
  }

  /** `_retire`: the entry of the active ban gets its release round; nothing else in the history moves. */
  function Retired(b: Book, s: int, reason: Reason, valueReturned: bool, round: nat): Book
    requires s in b.active
  {
    var ban := b.active[s];
    b.(history := Replaced(b.history, ban, RetiredBan(ban, reason, valueReturned, round)), active := b.active - {s})
  }

  lemma RetiredKeepsBook(b: Book, s: int, reason: Reason, valueReturned: bool, round: nat)
    requires BookOk(b) && s in b.active
    ensures BookOk(Retired(b, s, reason, valueReturned, round))
    ensures Retired(b, s, reason, valueReturned, round).history
         == b.history[b.active[s].version - 1 := RetiredBan(b.active[s], reason, valueReturned, round)]
  {
    var t := Retired(b, s, reason, valueReturned, round);
    var ban := b.active[s];
    assert Listed(b, s);
    forall k | k in t.active ensures Listed(t, k) {
      assert Listed(b, k);
      assert b.active[k].skeleton != ban.skeleton;
    }
    forall i | 0 <= i < |t.history| && t.history[i].releasedRound.None? ensures Held(t, t.history[i]) {
      assert t.history[i] == b.history[i];
      assert Held(b, b.history[i]);
    }
  }

  /** The entry of a ban that ends: its round and reason are noted, what it was issued for stays. */
  lemma RetiredEntry(b: Book, s: int, reason: Reason, valueReturned: bool, round: nat)
    requires BookOk(b) && s in b.active
    ensures var i, t := b.active[s].version - 1, Retired(b, s, reason, valueReturned, round);
      && 0 <= i < |b.history| == |t.history| && s !in t.active
      && t.history[i].releasedRound == Some(round) && t.history[i].reason == reason
      && (t.history[i].valueReturned <==> b.history[i].valueReturned || valueReturned)
      && t.history[i].(releasedRound := b.history[i].releasedRound, reason := b.history[i].reason, valueReturned := b.history[i].valueReturned) == b.history[i]
      && forall j :: 0 <= j < |b.history| && j != i ==> t.history[j] == b.history[j]
  {
    RetiredKeepsBook(b, s, reason, valueReturned, round);
    assert Listed(b, s);
  }

  /** Entries are only ever appended or marked as released. */
  ghost predicate HistoryGrows(a: seq<Ban>, b: seq<Ban>) {
    && |a| <= |b|
    && forall i :: 0 <= i < |a| ==> EntryKept(a[i], b[i])
  }

  ghost predicate EntryKept(a: Ban, b: Ban) {
    && b.skeleton == a.skeleton && b.version == a.version && b.bannedRound == a.bannedRound
    && b.share == a.share && b.acceptRate == a.acceptRate
    && (a.releasedRound.Some? ==> b == a)
  }

  lemma HistoryGrowsTransitive(a: seq<Ban>, b: seq<Ban>, c: seq<Ban>)
    requires HistoryGrows(a, b) && HistoryGrows(b, c)
    ensures HistoryGrows(a, c)
  {
    forall i | 0 <= i < |a| ensures EntryKept(a[i], c[i]) {
      assert EntryKept(a[i], b[i]) && EntryKept(b[i], c[i]);
    }
  }

  lemma RetiredGrows(b: Book, s: int, reason: Reason, valueReturned: bool, round: nat)
    requires BookOk(b) && s in b.active
    ensures HistoryGrows(b.history, Retired(b, s, reason, valueReturned, round).history)
  {
    assert Listed(b, s);
    var t := Retired(b, s, reason, valueReturned, round);
    forall i | 0 <= i < |b.history| ensures EntryKept(b.history[i], t.history[i]) {
      if b.history[i].version == b.active[s].version {
        assert b.history[i] == b.active[s];
      }
    }
  }
}

module FactorFsa {
  import opened Wrappers
  import opened Sorting
  import opened FsaStatistics
  import opened BanList

  datatype Policy = Policy(windowRounds: nat, shareThreshold: real, minAcceptRate: real, maxVariants: nat,
                           minObservations: nat, releaseShare: real, releaseRounds: nat)
  {
    predicate Valid() {
      && windowRounds >= 1 && 0.0 < shareThreshold <= 1.0 && 0.0 <= minAcceptRate <= 1.0 && maxVariants >= 1
      && minObservations >= 1 && 0.0 <= releaseShare < shareThreshold && 1 <= releaseRounds <= windowRounds
    }
  }

  function Ratio(k: nat, n: nat): real {
    if n == 0 then 0.0 else k as real / n as real
  }

  /** A skeleton crowding the window without being accepted. */
  predicate Crowding(policy: Policy, window: seq<Record>, s: int) {
    && WindowTotal(window) >= policy.minObservations && WindowCount(window, s) > 0
    && Ratio(WindowCount(window, s), WindowTotal(window)) >= policy.shareThreshold
    && Ratio(WindowAccepts(window, s), WindowCount(window, s)) < policy.minAcceptRate
  }

  /** The skeleton is rare in the round just seen. */
  predicate Rare(policy: Policy, current: Record, s: int) {
    Ratio(Get(current.counts, s), SumMap(current.counts)) < policy.releaseShare
  }

  function NextStreak(policy: Policy, current: Record, streak: nat, s: int): nat {
    if Rare(policy, current, s) then streak + 1 else 0
  }

  predicate ValueReturned(policy: Policy, window: seq<Record>, s: int) {
    Ratio(WindowAccepts(window, s), WindowCount(window, s)) >= policy.minAcceptRate
  }

  /** A ban ends when its skeleton is accepted again, or has been rare for long enough. */
  predicate ReleaseDue(policy: Policy, window: seq<Record>, streak: nat, s: int)
    requires window != []
  {
    ValueReturned(policy, window, s) || NextStreak(policy, window[|window| - 1], streak, s) >= policy.releaseRounds
  }

  /** The round's verdict on one skeleton, from the statistics and the ban list before the round. */
  predicate BannedAfter(policy: Policy, window: seq<Record>, start: Book, s: int)
    requires window != []
  {
    && (s in start.active || Crowding(policy, window, s))
    && !ReleaseDue(policy, window, if s in start.active then Get(start.streak, s) else 0, s)
  }

  /** The streak counter after the round. */
  function StreakAfter(policy: Policy, window: seq<Record>, start: Book, s: int): nat
    requires window != []
  {
    if s in start.active then NextStreak(policy, window[|window| - 1], Get(start.streak, s), s)
    else if Crowding(policy, window, s) then NextStreak(policy, window[|window| - 1], 0, s)
    else Get(start.streak, s)
  }

  // ---- The rules in counts instead of rates.

  /** At least this share of `n`. */
  predicate AtLeast(k: nat, share: real, n: nat) {
    k as real >= share * n as real
  }

  lemma RatioAgainst(k: nat, n: nat, bound: real)
    requires n > 0
    ensures Ratio(k, n) >= bound <==> AtLeast(k, bound, n)
  {
    var q := Ratio(k, n);
    assert q * n as real == k as real;
    assert (q - bound) * n as real == k as real - bound * n as real;
  }

  /** A ban is due on a skeleton exactly when the window holds enough observations, the skeleton has at least its share of
      them, and too few of its own were accepted. */
  lemma CrowdingMeans(policy: Policy, window: seq<Record>, s: int)
    requires policy.Valid()
    ensures Crowding(policy, window, s) <==>
      && WindowTotal(window) >= policy.minObservations && WindowCount(window, s) > 0
      && AtLeast(WindowCount(window, s), policy.shareThreshold, WindowTotal(window))
      && !AtLeast(WindowAccepts(window, s), policy.minAcceptRate, WindowCount(window, s))
  {
    if WindowTotal(window) >= policy.minObservations && WindowCount(window, s) > 0 {
      RatioAgainst(WindowCount(window, s), WindowTotal(window), policy.shareThreshold);
      RatioAgainst(WindowAccepts(window, s), WindowCount(window, s), policy.minAcceptRate);
    }
  }

  /** Rare in a round: less than the release share of the round's observations; in an empty round, any positive share will do. */
  lemma RareMeans(policy: Policy, current: Record, s: int)
    ensures Rare(policy, current, s) <==>
      if SumMap(current.counts) > 0 then !AtLeast(Get(current.counts, s), policy.releaseShare, SumMap(current.counts))
      else policy.releaseShare > 0.0
  {
    if SumMap(current.counts) > 0 {
      RatioAgainst(Get(current.counts, s), SumMap(current.counts), policy.releaseShare);
    }
  }

  /** Accepted often enough again; a skeleton gone from the window counts as never accepted. */
  lemma ValueReturnedMeans(policy: Policy, window: seq<Record>, s: int)
    ensures ValueReturned(policy, window, s) <==>
      if WindowCount(window, s) > 0 then AtLeast(WindowAccepts(window, s), policy.minAcceptRate, WindowCount(window, s))
      else policy.minAcceptRate <= 0.0
  {
    if WindowCount(window, s) > 0 {
      RatioAgainst(WindowAccepts(window, s), WindowCount(window, s), policy.minAcceptRate);
    }
  }

  datatype Decision = Allowed | BannedSkeleton(skeleton: int, version: nat) | VariantCap(skeleton: int, seen: nat)

  datatype Summary = Summary(round: nat, issued: int, released: int, distinctSkeletons: nat, observations: nat)

  datatype State = State(round: nat, window: seq<Record>, book: Book)

  datatype Payload = Payload(format: int, round: nat, window: seq<Record>, history: seq<Ban>,
                             activeSkeletons: seq<int>, streak: map<int, nat>, next: nat)

  const SNAPSHOT_FORMAT := 1

  datatype FsaError = NotBanned | UnsupportedFormat | MissingFromHistory

  /** Keeping the last n rounds round by round is keeping the last n rounds of the whole run. */
  lemma WindowOfRun(rounds: seq<Record>, r: Record, n: nat)
    requires n >= 1
    ensures LastRounds(LastRounds(rounds, n) + [r], n) == LastRounds(rounds + [r], n)
  {
  }

  // ---- Counting one batch.

  function AddOne(r: Record, s: int, accepted: bool, signature: seq<int>): Record {
    Record(r.counts[s := Get(r.counts, s) + 1],
           if accepted then r.accepts[s := Get(r.accepts, s) + 1] else r.accepts,
           r.variants[s := (if s in r.variants then r.variants[s] else {}) + {signature}])
  }

  /** Some of a definition's distinct keys have been counted. */
  ghost predicate Added(before: Record, after: Record, keys: seq<int>, accepted: bool, signature: seq<int>) {
    && (forall s :: AddedAt(before, after, keys, accepted, signature, s))
    && SumMap(after.counts) == SumMap(before.counts) + |keys|
  }

  ghost predicate AddedAt(before: Record, after: Record, keys: seq<int>, accepted: bool, signature: seq<int>, s: int) {
    if s in keys then
      && s in after.counts && after.counts[s] == Get(before.counts, s) + 1
      && Get(after.accepts, s) == Get(before.accepts, s) + (if accepted then 1 else 0)
      && (s in after.accepts <==> s in before.accepts || accepted)
      && s in after.variants && after.variants[s] == (if s in before.variants then before.variants[s] else {}) + {signature}
    else
      && Get(after.counts, s) == Get(before.counts, s) && (s in after.counts <==> s in before.counts)
      && Get(after.accepts, s) == Get(before.accepts, s) && (s in after.accepts <==> s in before.accepts)
      && (s in after.variants <==> s in before.variants) && (s in after.variants ==> after.variants[s] == before.variants[s])
  }

  lemma AddedStep(before: Record, r: Record, keys: seq<int>, i: nat, accepted: bool, signature: seq<int>)
    requires Distinct(keys) && i < |keys| && Added(before, r, keys[..i], accepted, signature)
    ensures Added(before, AddOne(r, keys[i], accepted, signature), keys[..i + 1], accepted, signature)
  {
    var k, after := keys[i], AddOne(r, keys[i], accepted, signature);
    assert keys[..i + 1] == keys[..i] + [k];
    assert k !in keys[..i];
    SumUpdate(r.counts, k, Get(r.counts, k) + 1);
    var done := keys[..i + 1];
    forall s ensures AddedAt(before, after, done, accepted, signature, s) {
      assert AddedAt(before, r, keys[..i], accepted, signature, s);
    }
  }

  /** Adding the keys of one definition, and a batch of definitions, as functions. */
  function AddKeys(before: Record, keys: seq<int>, accepted: bool, signature: seq<int>): Record {
    if keys == [] then before
    else AddOne(AddKeys(before, keys[..|keys| - 1], accepted, signature), keys[|keys| - 1], accepted, signature)
  }

  function BatchRecord(render: seq<int> -> int, defs: seq<Definition>, accepted: set<int>): Record {
    if defs == [] then Record(map[], map[], map[])
    else
      var d := defs[|defs| - 1];
      AddKeys(BatchRecord(render, defs[..|defs| - 1], accepted), SubtreeKeys(render, d.ops), d.hash in accepted, d.windows)
  }

  method CountDefinition(before: Record, keys: seq<int>, accepted: bool, signature: seq<int>) returns (r: Record)
    requires Distinct(keys)
    ensures Added(before, r, keys, accepted, signature) && r == AddKeys(before, keys, accepted, signature)
  {
    r := before;
    for i := 0 to |keys|
      invariant Added(before, r, keys[..i], accepted, signature) && r == AddKeys(before, keys[..i], accepted, signature)
    {
      assert keys[..i + 1][..i] == keys[..i];
      AddedStep(before, r, keys, i, accepted, signature);
      r := AddOne(r, keys[i], accepted, signature);
    }
    assert keys[..|keys|] == keys;
  }

  lemma CountsStep(render: seq<int> -> int, defs: seq<Definition>, accepted: set<int>, before: Record, after: Record, d: Definition)
    requires Counts(render, defs, accepted, before)
    requires Added(before, after, SubtreeKeys(render, d.ops), d.hash in accepted, d.windows)
    ensures Counts(render, defs + [d], accepted, after)
  {
    var all := defs + [d];
    assert all[..|all| - 1] == defs;
    forall s ensures CountsAt(render, all, accepted, after, s) {
      assert CountsAt(render, defs, accepted, before, s);
      assert AddedAt(before, after, SubtreeKeys(render, d.ops), d.hash in accepted, d.windows, s);
      SignaturesStep(render, defs, d, s);
    }
  }

  lemma SignaturesStep(render: seq<int> -> int, defs: seq<Definition>, d: Definition, s: int)
    ensures Signatures(render, defs + [d], s) == Signatures(render, defs, s) + if s in SubtreeKeys(render, d.ops) then {d.windows} else {}
    ensures Occurrences(render, defs, s) == 0 ==> Signatures(render, defs, s) == {}
  {
    var all := defs + [d];
    var a, b := Signatures(render, all, s), Signatures(render, defs, s) + if s in SubtreeKeys(render, d.ops) then {d.windows} else {};
    forall v ensures v in a <==> v in b {
      if v in a {
        var i :| 0 <= i < |all| && s in SubtreeKeys(render, all[i].ops) && all[i].windows == v;
        assert i < |defs| ==> defs[i] == all[i];
      }
      if v in Signatures(render, defs, s) {
        var i :| 0 <= i < |defs| && s in SubtreeKeys(render, defs[i].ops) && defs[i].windows == v;
        assert all[i] == defs[i];
      }
      assert all[|defs|] == d;
    }
    if Occurrences(render, defs, s) == 0 {
      NowhereMeansNoSignature(render, defs, s);
    }
  }

  lemma {:induction false} NowhereMeansNoSignature(render: seq<int> -> int, defs: seq<Definition>, s: int)
    requires Occurrences(render, defs, s) == 0
    ensures forall i :: 0 <= i < |defs| ==> s !in SubtreeKeys(render, defs[i].ops)
    decreases |defs|
  {
    if defs != [] {
      NowhereMeansNoSignature(render, defs[..|defs| - 1], s);
      forall i | 0 <= i < |defs| ensures s !in SubtreeKeys(render, defs[i].ops) {
        if i < |defs| - 1 {
          assert defs[..|defs| - 1][i] == defs[i];
        }
      }
    }
  }

  function Nodes(defs: seq<Definition>): nat {
    if defs == [] then 0 else Nodes(defs[..|defs| - 1]) + |defs[|defs| - 1].ops|
  }

  lemma {:induction false} AddKeysAdds(before: Record, keys: seq<int>, accepted: bool, signature: seq<int>, i: nat)
    requires Distinct(keys) && i <= |keys|
    ensures Added(before, AddKeys(before, keys[..i], accepted, signature), keys[..i], accepted, signature)
  {
    if i > 0 {
      AddKeysAdds(before, keys, accepted, signature, i - 1);
      AddedStep(before, AddKeys(before, keys[..i - 1], accepted, signature), keys, i - 1, accepted, signature);
      AddKeysNext(before, keys, accepted, signature, i - 1);
    }
  }

  lemma AddKeysNext(before: Record, keys: seq<int>, accepted: bool, signature: seq<int>, i: nat)
    requires i < |keys|
    ensures AddKeys(before, keys[..i + 1], accepted, signature)
      == AddOne(AddKeys(before, keys[..i], accepted, signature), keys[i], accepted, signature)
  {
    assert keys[..i + 1][..i] == keys[..i];
  }

  /** The record of a batch counts it. */
  lemma {:induction false} BatchCounts(render: seq<int> -> int, defs: seq<Definition>, accepted: set<int>)
    requires Nested(render)
    ensures Counts(render, defs, accepted, BatchRecord(render, defs, accepted))
  {
    if defs == [] {
      forall s ensures CountsAt(render, defs, accepted, BatchRecord(render, defs, accepted), s) {
      }
    } else {
      var front, d := defs[..|defs| - 1], defs[|defs| - 1];
      var before, keys := BatchRecord(render, front, accepted), SubtreeKeys(render, d.ops);
      BatchCounts(render, front, accepted);
      SubtreeKeysDistinct(render, d.ops);
      AddKeysAdds(before, keys, d.hash in accepted, d.windows, |keys|);
      assert keys[..|keys|] == keys;
      CountsStep(render, front, accepted, before, AddKeys(before, keys, d.hash in accepted, d.windows), d);
      assert front + [d] == defs;
    }
  }

  /** The counting loops of `observe`. */
  method CountBatch(render: seq<int> -> int, defs: seq<Definition>, accepted: set<int>) returns (r: Record, observations: nat)
    requires Nested(render)
    ensures Counts(render, defs, accepted, r) && r == BatchRecord(render, defs, accepted)
    ensures observations == Nodes(defs) == SumMap(r.counts)
  {
    r, observations := Record(map[], map[], map[]), 0;
    for i := 0 to |defs|
      invariant Counts(render, defs[..i], accepted, r) && r == BatchRecord(render, defs[..i], accepted)
      invariant observations == Nodes(defs[..i]) == SumMap(r.counts)
    {
      var d := defs[i];
      var keys := SubtreeKeys(render, d.ops);
      SubtreeKeysDistinct(render, d.ops);
      observations := observations + |keys|;
      var before := r;
      r := CountDefinition(r, keys, d.hash in accepted, d.windows);
      CountsStep(render, defs[..i], accepted, before, r, d);
      assert defs[..i + 1] == defs[..i] + [d];
      assert defs[..i + 1][..|defs[..i + 1]| - 1] == defs[..i];
    }
    assert defs[..|defs|] == defs;
  }

  // ---- Issuing.

  function NewBan(policy: Policy, window: seq<Record>, round: nat, version: nat, s: int): Ban {
    Ban(s, Dominant, version, round, Ratio(WindowCount(window, s), WindowTotal(window)),
        Ratio(WindowAccepts(window, s), WindowCount(window, s)), false, None)
  }

  ghost predicate IssuedAt(policy: Policy, window: seq<Record>, round: nat, start: Book, b: Book, keys: seq<int>, s: int) {
    if s in start.active then
      s in b.active && b.active[s] == start.active[s] && Get(b.streak, s) == Get(start.streak, s)
    else if s in keys && Crowding(policy, window, s) then
      && s in b.active && b.active[s] == NewBan(policy, window, round, b.active[s].version, s)
      && b.active[s].version > |start.history| && Get(b.streak, s) == 0
    else
      s !in b.active && Get(b.streak, s) == Get(start.streak, s)
  }

  /** The skeletons in `keys` have been judged. */
  ghost predicate IssuedSoFar(policy: Policy, window: seq<Record>, round: nat, start: Book, b: Book, keys: seq<int>) {
    && BookOk(b) && start.history <= b.history
    && forall s :: IssuedAt(policy, window, round, start, b, keys, s)
  }

  lemma IssueStep(policy: Policy, window: seq<Record>, round: nat, start: Book, b: Book, keys: seq<int>, k: int)
    requires BookOk(start) && IssuedSoFar(policy, window, round, start, b, keys) && k !in keys
    ensures var next := if k !in b.active && Crowding(policy, window, k) then Issued(b, NewBan(policy, window, round, b.next, k)) else b;
      IssuedSoFar(policy, window, round, start, next, keys + [k])
  {
    var more := keys + [k];
    assert IssuedAt(policy, window, round, start, b, keys, k);
    if k !in b.active && Crowding(policy, window, k) {
      var ban := NewBan(policy, window, round, b.next, k);
      IssuedKeepsBook(b, ban);
      var next := Issued(b, ban);
      forall s ensures IssuedAt(policy, window, round, start, next, more, s) {
        assert IssuedAt(policy, window, round, start, b, keys, s);
      }
    } else {
      forall s ensures IssuedAt(policy, window, round, start, b, more, s) {
        assert IssuedAt(policy, window, round, start, b, keys, s);
      }
    }
  }

  /** Judging one skeleton, and several in order. */
  function IssueKey(policy: Policy, window: seq<Record>, round: nat, b: Book, k: int): Book {
    if k !in b.active && Crowding(policy, window, k) then Issued(b, NewBan(policy, window, round, b.next, k)) else b
  }

  function IssueAll(policy: Policy, window: seq<Record>, round: nat, b: Book, keys: seq<int>): Book {
    if keys == [] then b
    else IssueKey(policy, window, round, IssueAll(policy, window, round, b, keys[..|keys| - 1]), keys[|keys| - 1])
  }

  lemma IssueAllNext(policy: Policy, window: seq<Record>, round: nat, b: Book, keys: seq<int>, i: nat)
    requires i < |keys|
    ensures IssueAll(policy, window, round, b, keys[..i + 1]) == IssueKey(policy, window, round, IssueAll(policy, window, round, b, keys[..i]), keys[i])
  {
    assert keys[..i + 1][..i] == keys[..i];
  }

  /** Below the minimum number of observations nothing crowds. */
  lemma {:induction false} NothingToIssue(policy: Policy, window: seq<Record>, round: nat, b: Book, keys: seq<int>)
    requires WindowTotal(window) < policy.minObservations
    ensures IssueAll(policy, window, round, b, keys) == b
  {
    if keys != [] {
      NothingToIssue(policy, window, round, b, keys[..|keys| - 1]);
    }
  }

  /** The skeletons counted anywhere in the window. */
  function CountedKeys(window: seq<Record>): set<int> {
    if window == [] then {} else CountedKeys(window[..|window| - 1]) + window[|window| - 1].counts.Keys
  }

  lemma {:induction false} CountedKeysAre(window: seq<Record>, s: int)
    requires WindowPositive(window)
    ensures s in CountedKeys(window) <==> WindowCount(window, s) > 0
  {
    if window != [] {
      var last := window[|window| - 1];
      CountedKeysAre(window[..|window| - 1], s);
      assert Positive(last) && PositiveAt(last, s);
    }
  }

  predicate PositiveAt(r: Record, s: int) {
    s in r.counts ==> r.counts[s] > 0
  }

  ghost predicate Positive(r: Record) {
    forall s {:trigger PositiveAt(r, s)} :: PositiveAt(r, s)
  }

  /** Dictionaries only hold keys that occurred. */
  ghost predicate WindowPositive(window: seq<Record>) {
    forall i :: 0 <= i < |window| ==> Positive(window[i])
  }

  /** New bans come in the order of their skeletons, behind everything issued before. */
  ghost predicate InKeyOrder(before: seq<Ban>, after: seq<Ban>) {
    && before <= after
    && forall i, j :: |before| <= i < j < |after| ==> after[i].skeleton < after[j].skeleton
  }

  lemma {:induction false} IssuedInKeyOrder(policy: Policy, window: seq<Record>, round: nat, b: Book, keys: seq<int>)
    requires forall i, j :: 0 <= i < j < |keys| ==> keys[i] < keys[j]
    ensures var h := IssueAll(policy, window, round, b, keys).history;
      InKeyOrder(b.history, h) && forall i :: |b.history| <= i < |h| ==> h[i].skeleton in keys
  {
    if keys != [] {
      IssuedInKeyOrder(policy, window, round, b, keys[..|keys| - 1]);
    }
  }

  // ---- Releasing.

  ghost predicate ReleasedAt(policy: Policy, window: seq<Record>, start: Book, b: Book, keys: seq<int>, s: int)
    requires window != []
  {
    if s in keys && s in start.active then
      && (s in b.active <==> !ReleaseDue(policy, window, Get(start.streak, s), s))
      && (s in b.active ==> b.active[s] == start.active[s])
      && Get(b.streak, s) == NextStreak(policy, window[|window| - 1], Get(start.streak, s), s)
    else
      && (s in b.active <==> s in start.active) && (s in b.active ==> b.active[s] == start.active[s])
      && Get(b.streak, s) == Get(start.streak, s)
  }

  ghost predicate ReleasedSoFar(policy: Policy, window: seq<Record>, start: Book, b: Book, keys: seq<int>)
    requires window != []
  {
    && BookOk(b) && |b.history| == |start.history| && HistoryGrows(start.history, b.history)
    && forall s :: ReleasedAt(policy, window, start, b, keys, s)
  }

  function Reviewed(policy: Policy, window: seq<Record>, round: nat, b: Book, k: int): Book
    requires window != [] && k in b.active
  {
    var streak := NextStreak(policy, window[|window| - 1], Get(b.streak, k), k);
    var c := b.(streak := b.streak[k := streak]);
    if ValueReturned(policy, window, k) then Retired(c, k, c.active[k].reason, true, round)
    else if streak >= policy.releaseRounds then Retired(c, k, c.active[k].reason, false, round)
    else c
  }

  lemma ReviewedKeepsBook(policy: Policy, window: seq<Record>, round: nat, b: Book, k: int)
    requires window != [] && BookOk(b) && k in b.active
    ensures BookOk(Reviewed(policy, window, round, b, k))
    ensures HistoryGrows(b.history, Reviewed(policy, window, round, b, k).history)
    ensures |Reviewed(policy, window, round, b, k).history| == |b.history|
  {
    var streak := NextStreak(policy, window[|window| - 1], Get(b.streak, k), k);
    var c := b.(streak := b.streak[k := streak]);
    assert BookOk(c) by {
      forall s | s in c.active ensures Listed(c, s) { assert Listed(b, s); }
      forall i | 0 <= i < |c.history| && c.history[i].releasedRound.None? ensures Held(c, c.history[i]) {
        assert Held(b, b.history[i]);
      }
    }
    var returned := ValueReturned(policy, window, k);
    if returned || streak >= policy.releaseRounds {
      RetiredKeepsBook(c, k, c.active[k].reason, returned, round);
      RetiredGrows(c, k, c.active[k].reason, returned, round);
    } else {
      forall i | 0 <= i < |b.history| ensures EntryKept(b.history[i], b.history[i]) {
      }
    }
  }

  lemma ReviewStep(policy: Policy, window: seq<Record>, round: nat, start: Book, b: Book, keys: seq<int>, k: int)
    requires window != [] && ReleasedSoFar(policy, window, start, b, keys) && k !in keys && k in start.active
    ensures k in b.active && ReleasedSoFar(policy, window, start, Reviewed(policy, window, round, b, k), keys + [k])
  {
    var more := keys + [k];
    assert ReleasedAt(policy, window, start, b, keys, k);
    ReviewedKeepsBook(policy, window, round, b, k);
    var next := Reviewed(policy, window, round, b, k);
    HistoryGrowsTransitive(start.history, b.history, next.history);
    forall s ensures ReleasedAt(policy, window, start, next, more, s) {
      assert ReleasedAt(policy, window, start, b, keys, s);
    }
  }

  function ReviewKey(policy: Policy, window: seq<Record>, round: nat, b: Book, k: int): Book
    requires window != []
  {
    if k in b.active then Reviewed(policy, window, round, b, k) else b
  }

  function ReviewAll(policy: Policy, window: seq<Record>, round: nat, b: Book, keys: seq<int>): Book
    requires window != []
  {
    if keys == [] then b
    else ReviewKey(policy, window, round, ReviewAll(policy, window, round, b, keys[..|keys| - 1]), keys[|keys| - 1])
  }

  lemma ReviewAllNext(policy: Policy, window: seq<Record>, round: nat, b: Book, keys: seq<int>, i: nat)
    requires window != [] && i < |keys|
    ensures ReviewAll(policy, window, round, b, keys[..i + 1])
      == ReviewKey(policy, window, round, ReviewAll(policy, window, round, b, keys[..i]), keys[i])
  {
    assert keys[..i + 1][..i] == keys[..i];
  }

  /** Issuing and then releasing, over all skeletons, is the round's verdict. */
  lemma VerdictIs(policy: Policy, window: seq<Record>, round: nat, start: Book, mid: Book, end: Book, counted: seq<int>, banned: seq<int>, s: int)
    requires window != [] && IssuedSoFar(policy, window, round, start, mid, counted)
    requires ReleasedSoFar(policy, window, mid, end, banned)
    requires (WindowCount(window, s) > 0 ==> s in counted || WindowTotal(window) < policy.minObservations) && (s in mid.active ==> s in banned)
    ensures s in end.active <==> BannedAfter(policy, window, start, s)
    ensures Get(end.streak, s) == StreakAfter(policy, window, start, s)
  {
    assert IssuedAt(policy, window, round, start, mid, counted, s);
    assert ReleasedAt(policy, window, mid, end, banned, s);
  }

  lemma AllSeenVariants(window: seq<Record>, i: nat, s: int)
    requires i < |window|
    ensures SeenVariants(window[..i + 1], s) == SeenVariants(window[..i], s) + if s in window[i].variants then window[i].variants[s] else {}
  {
    var a, b := SeenVariants(window[..i + 1], s), SeenVariants(window[..i], s) + if s in window[i].variants then window[i].variants[s] else {};
    forall v ensures v in a <==> v in b {
      if v in a {
        var j :| 0 <= j < i + 1 && s in window[..i + 1][j].variants && v in window[..i + 1][j].variants[s];
        assert j < i ==> window[..i][j] == window[..i + 1][j];
      }
      if v in SeenVariants(window[..i], s) {
        var j :| 0 <= j < i && s in window[..i][j].variants && v in window[..i][j].variants[s];
        assert window[..i + 1][j] == window[..i][j];
      }
      assert window[..i + 1][i] == window[i];
    }
  }

  lemma {:induction false} CountedOnce(window: seq<Record>, i: nat, s: int)
    requires i < |window|
    ensures WindowCount(window[..i + 1], s) == WindowCount(window[..i], s) + Get(window[i].counts, s)
    ensures WindowAccepts(window[..i + 1], s) == WindowAccepts(window[..i], s) + Get(window[i].accepts, s)
  {
    assert window[..i + 1][..|window[..i + 1]| - 1] == window[..i];
  }

  ghost predicate AggregatedAt(window: seq<Record>, counts: map<int, nat>, accepts: map<int, nat>, s: int) {
    && Get(counts, s) == WindowCount(window, s) && Get(accepts, s) == WindowAccepts(window, s)
    && (s in counts ==> counts[s] > 0)
  }

  /** The dictionaries `_aggregate` builds hold the window's sums. */
  ghost predicate Aggregates(window: seq<Record>, counts: map<int, nat>, accepts: map<int, nat>) {
    && (forall s {:trigger AggregatedAt(window, counts, accepts, s)} :: AggregatedAt(window, counts, accepts, s))
    && SumMap(counts) == WindowTotal(window)
  }

  lemma BatchPositive(render: seq<int> -> int, defs: seq<Definition>, accepted: set<int>, r: Record)
    requires Counts(render, defs, accepted, r)
    ensures Positive(r)
  {
    forall s ensures PositiveAt(r, s) {
      assert CountsAt(render, defs, accepted, r, s);
    }
  }

  lemma AggregateStep(window: seq<Record>, i: nat, counts: map<int, nat>, accepts: map<int, nat>)
    requires i < |window| && WindowPositive(window) && Aggregates(window[..i], counts, accepts)
    ensures Aggregates(window[..i + 1], Merged(counts, window[i].counts), Merged(accepts, window[i].accepts))
  {
    var c, a := Merged(counts, window[i].counts), Merged(accepts, window[i].accepts);
    var longer := window[..i + 1];
    forall s ensures AggregatedAt(longer, c, a, s) {
      assert AggregatedAt(window[..i], counts, accepts, s);
      CountedOnce(window, i, s);
      MergedGet(counts, window[i].counts, s);
      MergedGet(accepts, window[i].accepts, s);
      assert Positive(window[i]) && PositiveAt(window[i], s);
    }
    MergedSum(counts, window[i].counts);
    assert longer[..|longer| - 1] == window[..i];
  }

  lemma KeysAreCounted(window: seq<Record>, counts: map<int, nat>, accepts: map<int, nat>)
    requires WindowPositive(window) && Aggregates(window, counts, accepts)
    ensures counts.Keys == CountedKeys(window)
  {
    forall s ensures s in counts.Keys <==> s in CountedKeys(window) {
      assert AggregatedAt(window, counts, accepts, s);
      CountedKeysAre(window, s);
    }
  }

  lemma IssuedInOrder(policy: Policy, window: seq<Record>, round: nat, b: Book)
    ensures InKeyOrder(b.history, IssueAll(policy, window, round, b, SortSet(CountedKeys(window))).history)
  {
    SortSetFacts(CountedKeys(window));
    IssuedInKeyOrder(policy, window, round, b, SortSet(CountedKeys(window)));
  }

  // ---- The tracker as a value.

  /** What a round does to the ban list: issue over the counted skeletons, then review the active ones, both in key order. */
  function RoundBook(policy: Policy, window: seq<Record>, round: nat, b: Book): Book
    requires window != []
  {
    var issued := IssueAll(policy, window, round, b, SortSet(CountedKeys(window)));
    ReviewAll(policy, window, round, issued, SortSet(issued.active.Keys))
  }

  function Observed(policy: Policy, render: seq<int> -> int, t: State, defs: seq<Definition>, accepted: set<int>): State
    requires policy.Valid()
  {
    var window := LastRounds(t.window + [BatchRecord(render, defs, accepted)], policy.windowRounds);
    State(t.round + 1, window, RoundBook(policy, window, t.round + 1, t.book))
  }

  /** The summary of a round, from the tracker before and after it. */
  function SummaryOf(render: seq<int> -> int, t: State, after: State, defs: seq<Definition>, accepted: set<int>): Summary {
    var issued := |after.book.history| - |t.book.history|;
    Summary(after.round, issued, |t.book.active| + issued - |after.book.active|,
            |BatchRecord(render, defs, accepted).counts|, Nodes(defs))
  }

  function FirstOf(keys: seq<int>, active: map<int, Ban>): Option<int> {
    if keys == [] then None else if keys[0] in active then Some(keys[0]) else FirstOf(keys[1..], active)
  }

  /** A signature not seen in the window, with the cap already reached. */
  predicate VariantCapped(policy: Policy, signature: seq<int>, seen: set<seq<int>>) {
    seen != {} && signature !in seen && |seen| >= policy.maxVariants
  }

  function Intercepted(policy: Policy, render: seq<int> -> int, t: State, d: Definition): Decision {
    var banned := FirstOf(SubtreeKeys(render, d.ops), t.book.active);
    var root := render(d.ops);
    var seen := SeenVariants(t.window, root);
    if banned.Some? && banned.value in t.book.active then BannedSkeleton(banned.value, t.book.active[banned.value].version)
    else if VariantCapped(policy, d.windows, seen) then VariantCap(root, |seen|)
    else Allowed
  }

  /** Without a ban a definition is refused exactly when its skeleton was seen with other windows, never with these, and with
      as many different ones as allowed. */
  lemma InterceptMeans(policy: Policy, render: seq<int> -> int, t: State, d: Definition)
    requires policy.Valid() && forall k :: k in SubtreeKeys(render, d.ops) ==> k !in t.book.active
    ensures var seen := SeenVariants(t.window, render(d.ops));
      Intercepted(policy, render, t, d) == if d.windows !in seen && |seen| >= policy.maxVariants then VariantCap(render(d.ops), |seen|) else Allowed
  {
    NothingFirst(SubtreeKeys(render, d.ops), t.book.active);
    var seen := SeenVariants(t.window, render(d.ops));
    assert seen == {} ==> |seen| == 0;
  }

  lemma {:induction false} NothingFirst(keys: seq<int>, active: map<int, Ban>)
    requires forall i :: 0 <= i < |keys| ==> keys[i] !in active
    ensures FirstOf(keys, active).None?
  {
    if keys != [] {
      assert keys[0] !in active;
      NothingFirst(keys[1..], active);
    }
  }

  function Released(t: State, s: int, text: string): State {
    if s in t.book.active then t.(book := Retired(t.book, s, Manual(text), false, t.round)) else t
  }

  lemma AddActive(m: map<int, Ban>, k: int, ban: Ban)
    requires k !in m
    ensures |m[k := ban]| == |m| + 1
  {
    assert m[k := ban].Keys == m.Keys + {k};
    assert |m[k := ban].Keys| == |m[k := ban]| && |m.Keys| == |m|;
  }

  lemma DropOne(m: map<int, Ban>, k: int)
    requires k in m
    ensures |m - {k}| == |m| - 1
  {
    assert (m - {k}).Keys == m.Keys - {k};
    assert |(m - {k}).Keys| == |m - {k}| && |m.Keys| == |m|;
  }

  /** The next key in order is a key not handled yet. */
  lemma NextKey(keys: set<int>, i: nat)
    requires i < |SortSet(keys)|
    ensures SortSet(keys)[i] in keys && SortSet(keys)[i] !in SortSet(keys)[..i]
    ensures SortSet(keys)[..i + 1] == SortSet(keys)[..i] + [SortSet(keys)[i]]
  {
    SortSetFacts(keys);
    assert SortSet(keys)[i] in SortSet(keys);
  }

  class FsaTracker {
    const policy: Policy
    const render: seq<int> -> int
    var round: nat
    var window: seq<Record>
    var history: seq<Ban>
    var active: map<int, Ban>
    var lowStreak: map<int, nat>
    var nextVersion: nat

    ghost function Book(): Book
      reads this`history, this`active, this`lowStreak, this`nextVersion
    {
      BanList.Book(history, active, lowStreak, nextVersion)
    }

    ghost function Now(): State
      reads this
    {
      State(round, window, Book())
    }

    ghost predicate Valid()
      reads this
    {
      policy.Valid() && Nested(render) && |window| <= policy.windowRounds && WindowPositive(window) && BookOk(Book())
    }

    constructor (policy: Policy, render: seq<int> -> int)
      requires policy.Valid() && Nested(render)
      ensures Valid() && this.policy == policy && this.render == render && round == 0 && window == [] && history == []
    {
      this.policy, this.render := policy, render;
      round, window, history, active, lowStreak, nextVersion := 0, [], [], map[], map[], 1;
    }

    method Aggregate() returns (counts: map<int, nat>, accepts: map<int, nat>)
      requires WindowPositive(window)
      ensures Aggregates(window, counts, accepts)
    {
      counts, accepts := map[], map[];
      for i := 0 to |window|
        invariant Aggregates(window[..i], counts, accepts)
      {
        AggregateStep(window, i, counts, accepts);
        counts, accepts := Merged(counts, window[i].counts), Merged(accepts, window[i].accepts);
      }
      assert window[..|window|] == window;
    }

    method IssueOne(s: int, counts: map<int, nat>, accepts: map<int, nat>) returns (issued: bool)
      requires Aggregates(window, counts, accepts) && SumMap(counts) >= policy.minObservations && s in counts
      modifies this`history, this`active, this`lowStreak, this`nextVersion
      ensures Book() == if s !in old(active) && Crowding(policy, window, s)
        then Issued(old(Book()), NewBan(policy, window, round, old(nextVersion), s)) else old(Book())
      ensures issued <==> |history| > |old(history)|
      ensures |active| == |old(active)| + if issued then 1 else 0
    {
      if s in active {
        return false;
      }
      var total := SumMap(counts);
      assert AggregatedAt(window, counts, accepts, s);
      var share := Ratio(counts[s], total);
      var acceptRate := Ratio(Get(accepts, s), counts[s]);
      if share >= policy.shareThreshold && acceptRate < policy.minAcceptRate {
        var ban := Ban(s, Dominant, nextVersion, round, share, acceptRate, false, None);
        AddActive(active, s, ban);
        active := active[s := ban];
        history := history + [ban];
        nextVersion := nextVersion + 1;
        lowStreak := lowStreak[s := 0];
        return true;
      }
      return false;
    }

    method IssueNext(k: int, ghost start: Book, ghost keys: seq<int>, counts: map<int, nat>, accepts: map<int, nat>) returns (issued: bool)
      requires Aggregates(window, counts, accepts) && SumMap(counts) >= policy.minObservations && k in counts && k !in keys
      requires BookOk(start) && IssuedSoFar(policy, window, round, start, Book(), keys)
      modifies this`history, this`active, this`lowStreak, this`nextVersion
      ensures IssuedSoFar(policy, window, round, start, Book(), keys + [k])
      ensures Book() == IssueKey(policy, window, round, old(Book()), k)
      ensures |history| == |old(history)| + if issued then 1 else 0
      ensures |active| == |old(active)| + if issued then 1 else 0
    {
      IssueStep(policy, window, round, start, Book(), keys, k);
      issued := IssueOne(k, counts, accepts);
    }

    /** `_issue_bans`: in key order, nothing below the minimum number of observations. */
    method IssueBans(counts: map<int, nat>, accepts: map<int, nat>) returns (issued: nat, ghost keys: seq<int>)
      requires Valid() && Aggregates(window, counts, accepts)
      modifies this`history, this`active, this`lowStreak, this`nextVersion
      ensures Valid() && IssuedSoFar(policy, window, round, old(Book()), Book(), keys)
      ensures Book() == IssueAll(policy, window, round, old(Book()), SortSet(CountedKeys(window))) && InKeyOrder(old(history), history)
      ensures issued == |history| - |old(history)| == |active| - |old(active)|
      ensures forall s :: WindowCount(window, s) > 0 ==> s in keys || WindowTotal(window) < policy.minObservations
    {
      ghost var start := Book();
      NothingIssued(start);
      KeysAreCounted(window, counts, accepts);
      IssuedInOrder(policy, window, round, start);
      if SumMap(counts) < policy.minObservations {
        NothingToIssue(policy, window, round, start, SortSet(counts.Keys));
        return 0, [];
      }
      var order := SortSet(counts.Keys);
      issued := 0;
      for i := 0 to |order|
        invariant IssuedSoFar(policy, window, round, start, Book(), order[..i])
        invariant Book() == IssueAll(policy, window, round, start, order[..i])
        invariant issued == |history| - |old(history)| == |active| - |old(active)|
      {
        NextKey(counts.Keys, i);
        IssueAllNext(policy, window, round, start, order, i);
        var done := IssueNext(order[i], start, order[..i], counts, accepts);
        issued := issued + if done then 1 else 0;
      }
      assert order[..|order|] == order;
      keys := order;
      SortSetFacts(counts.Keys);
      forall s | WindowCount(window, s) > 0 ensures s in keys {
        CountedKeysAre(window, s);
      }
    }

    lemma NothingIssued(b: Book)
      requires BookOk(b)
      ensures IssuedSoFar(policy, window, round, b, b, [])
    {
    }

    lemma NothingReleased(b: Book)
      requires BookOk(b) && window != []
      ensures ReleasedSoFar(policy, window, b, b, [])
    {
      forall i | 0 <= i < |b.history| ensures EntryKept(b.history[i], b.history[i]) {
      }
    }

    method Retire(s: int, reason: Reason, valueReturned: bool)
      requires s in active
      modifies this`history, this`active
      ensures Book() == Retired(old(Book()), s, reason, valueReturned, round)
    {
      var ban := active[s];
      history := Replaced(history, ban, RetiredBan(ban, reason, valueReturned, round));
      active := active - {s};
    }

    method ReviewOne(s: int, counts: map<int, nat>, accepts: map<int, nat>) returns (released: bool)
      requires window != [] && Aggregates(window, counts, accepts) && s in active
      modifies this`history, this`active, this`lowStreak
      ensures Book() == Reviewed(policy, window, round, old(Book()), s)
      ensures active == if released then old(active) - {s} else old(active)
    {
      assert AggregatedAt(window, counts, accepts, s);
      var current := window[|window| - 1];
      var share := Ratio(Get(current.counts, s), SumMap(current.counts));
      if share < policy.releaseShare {
        lowStreak := lowStreak[s := Get(lowStreak, s) + 1];
      } else {
        lowStreak := lowStreak[s := 0];
      }
      var acceptRate := Ratio(Get(accepts, s), Get(counts, s));
      if acceptRate >= policy.minAcceptRate {
        Retire(s, active[s].reason, true);
        return true;
      }
      if lowStreak[s] >= policy.releaseRounds {
        Retire(s, active[s].reason, false);
        return true;
      }
      return false;
    }

    method ReviewNext(k: int, ghost start: Book, ghost keys: seq<int>, counts: map<int, nat>, accepts: map<int, nat>) returns (released: bool)
      requires window != [] && Aggregates(window, counts, accepts)
      requires ReleasedSoFar(policy, window, start, Book(), keys) && k !in keys && k in start.active
      modifies this`history, this`active, this`lowStreak
      ensures ReleasedSoFar(policy, window, start, Book(), keys + [k])
      ensures Book() == ReviewKey(policy, window, round, old(Book()), k)
      ensures |active| == |old(active)| - if released then 1 else 0
    {
      ReviewStep(policy, window, round, start, Book(), keys, k);
      DropOne(active, k);
      released := ReviewOne(k, counts, accepts);
    }

    /** `_evaluate_releases`: every active ban, in key order. */
    method EvaluateReleases(counts: map<int, nat>, accepts: map<int, nat>) returns (released: nat, ghost keys: seq<int>)
      requires Valid() && window != [] && Aggregates(window, counts, accepts)
      modifies this`history, this`active, this`lowStreak
      ensures Valid() && ReleasedSoFar(policy, window, old(Book()), Book(), keys)
      ensures Book() == ReviewAll(policy, window, round, old(Book()), SortSet(old(active).Keys))
      ensures forall s :: s in old(active) ==> s in keys
      ensures |active| == |old(active)| - released
    {
      ghost var start := Book();
      NothingReleased(start);
      var order := SortSet(active.Keys);
      released := 0;
      for i := 0 to |order|
        invariant ReleasedSoFar(policy, window, start, Book(), order[..i])
        invariant Book() == ReviewAll(policy, window, round, start, order[..i])
        invariant |active| == |old(active)| - released
      {
        NextKey(start.active.Keys, i);
        ReviewAllNext(policy, window, round, start, order, i);
        var done := ReviewNext(order[i], start, order[..i], counts, accepts);
        released := released + if done then 1 else 0;
      }
      assert order[..|order|] == order;
      SortSetFacts(start.active.Keys);
      keys := order;
    }

    /** Count the batch and slide the window. */
    method Slide(defs: seq<Definition>, accepted: set<int>) returns (distinct: nat, observations: nat)
      requires Valid()
      modifies this`round, this`window
      ensures Valid() && round == old(round) + 1 && window != []
      ensures window == LastRounds(old(window) + [BatchRecord(render, defs, accepted)], policy.windowRounds)
      ensures Counts(render, defs, accepted, BatchRecord(render, defs, accepted))
      ensures distinct == |BatchRecord(render, defs, accepted).counts| && observations == Nodes(defs)
    {
      var current;
      current, observations := CountBatch(render, defs, accepted);
      BatchPositive(render, defs, accepted, current);
      window := window + [current];
      if |window| > policy.windowRounds {
        window := window[|window| - policy.windowRounds..];
      }
      assert window == LastRounds(old(window) + [current], policy.windowRounds);
      round := round + 1;
      distinct := |current.counts|;
    }

    /** Issue, then release, over the statistics of the window. */
    method Judge() returns (issued: nat, released: nat)
      requires Valid() && window != []
      modifies this`history, this`active, this`lowStreak, this`nextVersion
      ensures Valid() && Book() == RoundBook(policy, window, round, old(Book()))
      ensures forall s :: s in active <==> BannedAfter(policy, window, old(Book()), s)
      ensures forall s :: Get(lowStreak, s) == StreakAfter(policy, window, old(Book()), s)
      ensures |active| == |old(active)| + issued - released && issued == |history| - |old(history)|
      ensures HistoryGrows(old(history), history)
    {
      ghost var start := Book();
      var counts, accepts := Aggregate();
      ghost var counted: seq<int>, banned: seq<int>;
      issued, counted := IssueBans(counts, accepts);
      ghost var mid := Book();
      released, banned := EvaluateReleases(counts, accepts);
      forall s ensures (s in active <==> BannedAfter(policy, window, start, s)) && Get(lowStreak, s) == StreakAfter(policy, window, start, s) {
        VerdictIs(policy, window, round, start, mid, Book(), counted, banned, s);
      }
      RoundGrows(start, mid, Book());
    }

    /** One round: count the batch, slide the window, issue, then release. */
    method Observe(defs: seq<Definition>, accepted: set<int>) returns (summary: Summary)
      requires Valid()
      modifies this
      ensures Valid() && Now() == Observed(policy, render, old(Now()), defs, accepted)
      ensures summary == SummaryOf(render, old(Now()), Now(), defs, accepted)
      ensures Counts(render, defs, accepted, BatchRecord(render, defs, accepted)) && window != []
      ensures forall s :: s in active <==> BannedAfter(policy, window, old(Book()), s)
      ensures forall s :: Get(lowStreak, s) == StreakAfter(policy, window, old(Book()), s)
      ensures |active| == |old(active)| + summary.issued - summary.released
      ensures HistoryGrows(old(history), history)
    {
      var distinct, observations := Slide(defs, accepted);
      var issued, released := Judge();
      summary := Summary(round, issued, released, distinct, observations);
      assert Now().book == RoundBook(policy, window, round, old(Book()));
    }

    lemma RoundGrows(start: Book, mid: Book, end: Book)
      requires start.history <= mid.history && HistoryGrows(mid.history, end.history)
      ensures HistoryGrows(start.history, end.history)
    {
      forall i | 0 <= i < |start.history| ensures EntryKept(start.history[i], end.history[i]) {
        assert mid.history[i] == start.history[i];
        assert EntryKept(mid.history[i], end.history[i]);
      }
    }

    method SeenIn(s: int) returns (seen: set<seq<int>>)
      ensures seen == SeenVariants(window, s)
    {
      seen := {};
      for i := 0 to |window|
        invariant seen == SeenVariants(window[..i], s)
      {
        AllSeenVariants(window, i, s);
        if s in window[i].variants {
          seen := seen + window[i].variants[s];
        }
      }
      assert window[..|window|] == window;
    }

    method FirstBanned(keys: seq<int>) returns (k: Option<int>)
      ensures k == FirstOf(keys, active)
      ensures k.Some? ==> k.value in keys && k.value in active
      ensures k.None? ==> forall s :: s in keys ==> s !in active
    {
      for i := 0 to |keys|
        invariant FirstOf(keys, active) == FirstOf(keys[i..], active)
        invariant forall j :: 0 <= j < i ==> keys[j] !in active
      {
        assert keys[i..][1..] == keys[i + 1..];
        if keys[i] in active {
          return Some(keys[i]);
        }
      }
      return None;
    }

    /** `intercept`: a banned subtree anywhere, or too many window variants of the same skeleton. */
    method Intercept(d: Definition) returns (decision: Decision)
      requires policy.Valid()
      ensures decision == Intercepted(policy, render, Now(), d)
      ensures decision.BannedSkeleton? <==> exists k :: k in SubtreeKeys(render, d.ops) && k in active
      ensures decision.BannedSkeleton? ==>
        decision.skeleton in SubtreeKeys(render, d.ops) && decision.skeleton in active && active[decision.skeleton].version == decision.version
      ensures !decision.BannedSkeleton? ==> (decision.VariantCap? <==> VariantCapped(policy, d.windows, SeenVariants(window, render(d.ops))))
    {
      var banned := FirstBanned(SubtreeKeys(render, d.ops));
      if banned.Some? {
        return BannedSkeleton(banned.value, active[banned.value].version);
      }
      var root := render(d.ops);
      var seen := SeenIn(root);
      if VariantCapped(policy, d.windows, seen) {
        return VariantCap(root, |seen|);
      }
      return Allowed;
    }

    method Release(s: int, text: string) returns (e: Option<FsaError>)
      requires Valid()
      modifies this
      ensures Valid() && Now() == Released(old(Now()), s, text)
      ensures e == if s in old(active) then None else Some(NotBanned)
      ensures e.None? ==> active == old(active) - {s} && HistoryGrows(old(history), history) && |history| == |old(history)|
      ensures e.Some? ==> Book() == old(Book())
    {
      if s !in active {
        return Some(NotBanned);
      }
      RetiredKeepsBook(Book(), s, Manual(text), false, round);
      RetiredGrows(Book(), s, Manual(text), false, round);
      Retire(s, Manual(text), false);
      return None;
    }

    // ---- Snapshots.

    method Snapshot() returns (p: Payload)
      ensures p == PayloadOf(Now())
    {
      p := Payload(SNAPSHOT_FORMAT, round, window, history, SortSet(active.Keys), lowStreak, nextVersion);
    }

    /** `restore`: rebuild the tracker, taking the active bans from the history. */
    constructor Restore(p: Payload, policy: Policy, render: seq<int> -> int, activeBans: map<int, Ban>)
      requires policy.Valid() && Nested(render)
      ensures this.policy == policy && this.render == render
      ensures round == p.round && window == LastRounds(p.window, policy.windowRounds)
      ensures Book() == BanList.Book(p.history, activeBans, p.streak, p.next)
    {
      this.policy, this.render := policy, render;
      round, window := p.round, LastRounds(p.window, policy.windowRounds);
      history, active, lowStreak, nextVersion := p.history, activeBans, p.streak, p.next;
    }
  }

  function PayloadOf(t: State): Payload {
    Payload(SNAPSHOT_FORMAT, t.round, t.window, t.book.history, SortSet(t.book.active.Keys), t.book.streak, t.book.next)
  }

  predicate UnreleasedOf(ban: Ban, s: int) {
    ban.skeleton == s && ban.releasedRound.None?
  }

  /** The last unreleased entry of `s`, if there is one. */
  function LastUnreleased(history: seq<Ban>, s: int): (ban: Option<Ban>)
    ensures ban.Some? ==> ban.value in history && UnreleasedOf(ban.value, s)
    ensures ban.None? ==> forall i :: 0 <= i < |history| ==> !UnreleasedOf(history[i], s)
  {
    if history == [] then None
    else
      var last := history[|history| - 1];
      if UnreleasedOf(last, s) then Some(last) else LastUnreleased(history[..|history| - 1], s)
  }

  method FindActive(history: seq<Ban>, s: int) returns (ban: Option<Ban>)
    ensures ban == LastUnreleased(history, s)
  {
    ban := None;
    for i := 0 to |history|
      invariant ban == LastUnreleased(history[..i], s)
    {
      assert history[..i + 1][..i] == history[..i];
      if UnreleasedOf(history[i], s) {
        ban := Some(history[i]);
      }
    }
    assert history[..|history|] == history;
  }

  /** The active bans of a snapshot: for every listed skeleton its last unreleased entry; one without any is an error. */
  function Recovered(history: seq<Ban>, listed: seq<int>): Result<map<int, Ban>, FsaError> {
    if listed == [] then Ok(map[])
    else
      var earlier := Recovered(history, listed[..|listed| - 1]);
      var s := listed[|listed| - 1];
      if earlier.Err? then earlier
      else if LastUnreleased(history, s).None? then Err(MissingFromHistory)
      else Ok(earlier.value[s := LastUnreleased(history, s).value])
  }

  /** `restore` as a function of the payload. */
  function Restored(p: Payload, policy: Policy): Result<State, FsaError> {
    if p.format != SNAPSHOT_FORMAT then Err(UnsupportedFormat)
    else
      var active := Recovered(p.history, p.activeSkeletons);
      if active.Err? then Err(active.error)
      else Ok(State(p.round, LastRounds(p.window, policy.windowRounds), BanList.Book(p.history, active.value, p.streak, p.next)))
  }

  /** `found` holds the last unreleased entry of each of the listed skeletons. */
  ghost predicate Recovers(history: seq<Ban>, listed: seq<int>, found: map<int, Ban>) {
    && (forall s :: s in found <==> s in listed)
    && (forall s :: s in found ==> LastUnreleased(history, s) == Some(found[s]))
  }

  lemma {:induction false} RecoveredAre(history: seq<Ban>, listed: seq<int>)
    ensures Recovered(history, listed).Ok? <==> forall s :: s in listed ==> LastUnreleased(history, s).Some?
    ensures Recovered(history, listed).Ok? ==> Recovers(history, listed, Recovered(history, listed).value)
  {
    if listed != [] {
      var front, s := listed[..|listed| - 1], listed[|listed| - 1];
      RecoveredAre(history, front);
      assert listed == front + [s];
      assert forall x :: x in listed <==> x in front || x == s;
      var all := Recovered(history, listed);
      if all.Ok? {
        var earlier := Recovered(history, front).value;
        assert all.value == earlier[s := LastUnreleased(history, s).value];
        forall x ensures x in all.value <==> x in listed {
          assert x in earlier <==> x in front;
        }
        forall x | x in all.value ensures LastUnreleased(history, x) == Some(all.value[x]) {
          assert x != s ==> x in earlier;
        }
      }
    }
  }

  lemma ActiveIsLast(b: Book, s: int)
    requires BookOk(b) && s in b.active
    ensures LastUnreleased(b.history, s) == Some(b.active[s])
  {
    assert Listed(b, s);
    assert UnreleasedOf(b.history[b.active[s].version - 1], s);
    var ban := LastUnreleased(b.history, s);
    var i :| 0 <= i < |b.history| && b.history[i] == ban.value;
    assert Held(b, b.history[i]);
  }

  lemma OnlyActive(b: Book, listed: seq<int>, found: map<int, Ban>)
    requires Recovers(b.history, listed, found) && forall s :: s in listed <==> s in b.active
    requires forall s :: s in listed ==> LastUnreleased(b.history, s) == Some(b.active[s])
    ensures found == b.active
  {
    forall s ensures s in found.Keys <==> s in b.active.Keys {
      assert s in found <==> s in listed;
    }
    assert found.Keys == b.active.Keys;
    forall s | s in found ensures found[s] == b.active[s] {
      assert LastUnreleased(b.history, s) == Some(found[s]);
    }
  }

  /** In a sound ban list the recovered bans are the active ones. */
  lemma RecoveredIsActive(b: Book)
    requires BookOk(b)
    ensures Recovered(b.history, SortSet(b.active.Keys)) == Ok(b.active)
  {
    var listed := SortSet(b.active.Keys);
    SortSetFacts(b.active.Keys);
    RecoveredAre(b.history, listed);
    forall s | s in listed ensures s in b.active && LastUnreleased(b.history, s) == Some(b.active[s]) {
      assert s in b.active.Keys;
      ActiveIsLast(b, s);
    }
    OnlyActive(b, listed, Recovered(b.history, listed).value);
  }

  /** A snapshot of a sound tracker, restored under the same policy, is that tracker. */
  lemma RestoreUndoesSnapshot(t: State, policy: Policy)
    requires BookOk(t.book) && |t.window| <= policy.windowRounds
    ensures Restored(PayloadOf(t), policy) == Ok(t)
  {
    RecoveredIsActive(t.book);
  }

  method ActiveFromHistory(history: seq<Ban>, listed: seq<int>) returns (r: Result<map<int, Ban>, FsaError>)
    ensures r == Recovered(history, listed)
  {
    var found: map<int, Ban> := map[];
    for i := 0 to |listed|
      invariant Recovered(history, listed[..i]) == Ok(found)
    {
      assert listed[..i + 1][..i] == listed[..i];
      var ban := FindActive(history, listed[i]);
      if ban.None? {
        RecoveredAre(history, listed);
        assert LastUnreleased(history, listed[i]).None?;
        RecoveryFails(history, listed);
        return Err(MissingFromHistory);
      }
      found := found[listed[i] := ban.value];
    }
    assert listed[..|listed|] == listed;
    return Ok(found);
  }

  lemma {:induction false} RecoveryFails(history: seq<Ban>, listed: seq<int>)
    ensures Recovered(history, listed).Err? ==> Recovered(history, listed).error == MissingFromHistory
  {
    if listed != [] {
      RecoveryFails(history, listed[..|listed| - 1]);
    }
  }

  /** `restore`: the tracker the payload describes; a sound snapshot gives back exactly the tracker it was taken from. */
  method RestoreTracker(p: Payload, policy: Policy, render: seq<int> -> int) returns (r: Result<FsaTracker, FsaError>)
    requires policy.Valid() && Nested(render)
    ensures r.Ok? ==> Restored(p, policy) == Ok(r.value.Now()) && r.value.policy == policy && r.value.render == render && fresh(r.value)
    ensures r.Err? ==> Restored(p, policy) == Err(r.error)
    ensures forall t: State :: p == PayloadOf(t) && BookOk(t.book) && |t.window| <= policy.windowRounds ==>
      r.Ok? && r.value.Now() == t && (WindowPositive(t.window) ==> r.value.Valid())
  {
    forall t: State | p == PayloadOf(t) && BookOk(t.book) && |t.window| <= policy.windowRounds ensures Restored(p, policy) == Ok(t) {
      RestoreUndoesSnapshot(t, policy);
    }
    if p.format != SNAPSHOT_FORMAT {
      return Err(UnsupportedFormat);
    }
    var active := ActiveFromHistory(p.history, p.activeSkeletons);
    if active.Err? {
      return Err(active.error);
    }
    var tracker := new FsaTracker.Restore(p, policy, render, active.value);
    return Ok(tracker);
  }
}

/** Runs of a tracker: rounds, interceptions and manual releases in any order. */
module FsaRuns {
  import opened Wrappers
  import opened Sorting
  import opened FsaStatistics
  import opened BanList
  import opened FactorFsa

  datatype Call =
    | ObserveCall(defs: seq<Definition>, accepted: set<int>)
    | InterceptCall(definition: Definition)
    | ReleaseCall(skeleton: int, text: string)

  datatype Answer = Summarised(summary: Summary) | Decided(decision: Decision) | Done(error: Option<FsaError>)

  function After(policy: Policy, render: seq<int> -> int, t: State, call: Call): State
    requires policy.Valid()
  {
    match call
    case ObserveCall(defs, accepted) => Observed(policy, render, t, defs, accepted)
    case InterceptCall(_) => t
    case ReleaseCall(s, text) => Released(t, s, text)
  }

  function AnswerTo(policy: Policy, render: seq<int> -> int, t: State, call: Call): Answer
    requires policy.Valid()
  {
    match call
    case ObserveCall(defs, accepted) => Summarised(SummaryOf(render, t, After(policy, render, t, call), defs, accepted))
    case InterceptCall(d) => Decided(Intercepted(policy, render, t, d))
    case ReleaseCall(s, _) => Done(if s in t.book.active then None else Some(NotBanned))
  }

  function Run(policy: Policy, render: seq<int> -> int, t: State, calls: seq<Call>): State
    requires policy.Valid()
  {
    if calls == [] then t else After(policy, render, Run(policy, render, t, calls[..|calls| - 1]), calls[|calls| - 1])
  }

  function Answers(policy: Policy, render: seq<int> -> int, t: State, calls: seq<Call>): seq<Answer>
    requires policy.Valid()
  {
    if calls == [] then []
    else
      Answers(policy, render, t, calls[..|calls| - 1]) +
      [AnswerTo(policy, render, Run(policy, render, t, calls[..|calls| - 1]), calls[|calls| - 1])]
  }

  /** The records of the rounds of a run. */
  function Records(render: seq<int> -> int, calls: seq<Call>): seq<Record> {
    if calls == [] then []
    else
      var last := calls[|calls| - 1];
      Records(render, calls[..|calls| - 1]) + if last.ObserveCall? then [BatchRecord(render, last.defs, last.accepted)] else []
  }

  const EMPTY := State(0, [], Book([], map[], map[], 1))

  ghost predicate Sound(policy: Policy, t: State) {
    BookOk(t.book) && |t.window| <= policy.windowRounds
  }

  lemma {:induction false} IssueKeepsBook(policy: Policy, window: seq<Record>, round: nat, b: Book, keys: seq<int>)
    requires BookOk(b)
    ensures var t := IssueAll(policy, window, round, b, keys); BookOk(t) && HistoryGrows(b.history, t.history)
  {
    if keys == [] {
      NothingMoved(b.history);
    } else {
      IssueKeepsBook(policy, window, round, b, keys[..|keys| - 1]);
      var earlier, k := IssueAll(policy, window, round, b, keys[..|keys| - 1]), keys[|keys| - 1];
      if k !in earlier.active && Crowding(policy, window, k) {
        IssuedKeepsBook(earlier, NewBan(policy, window, round, earlier.next, k));
      }
    }
  }

  lemma NothingMoved(h: seq<Ban>)
    ensures HistoryGrows(h, h)
  {
    forall i | 0 <= i < |h| ensures EntryKept(h[i], h[i]) {
    }
  }

  lemma {:induction false} ReviewKeepsBook(policy: Policy, window: seq<Record>, round: nat, b: Book, keys: seq<int>)
    requires window != [] && BookOk(b)
    ensures var t := ReviewAll(policy, window, round, b, keys);
      BookOk(t) && HistoryGrows(b.history, t.history) && |t.history| == |b.history|
  {
    if keys == [] {
      NothingMoved(b.history);
    } else {
      ReviewKeepsBook(policy, window, round, b, keys[..|keys| - 1]);
      var earlier, k := ReviewAll(policy, window, round, b, keys[..|keys| - 1]), keys[|keys| - 1];
      if k in earlier.active {
        ReviewedKeepsBook(policy, window, round, earlier, k);
        HistoryGrowsTransitive(b.history, earlier.history, Reviewed(policy, window, round, earlier, k).history);
      }
    }
  }

  lemma AfterKeepsSound(policy: Policy, render: seq<int> -> int, t: State, call: Call)
    requires policy.Valid() && Sound(policy, t)
    ensures var u := After(policy, render, t, call); Sound(policy, u) && HistoryGrows(t.book.history, u.book.history)
  {
    match call {
      case ObserveCall(defs, accepted) =>
        var u := Observed(policy, render, t, defs, accepted);
        var issued := IssueAll(policy, u.window, u.round, t.book, SortSet(CountedKeys(u.window)));
        IssueKeepsBook(policy, u.window, u.round, t.book, SortSet(CountedKeys(u.window)));
        ReviewKeepsBook(policy, u.window, u.round, issued, SortSet(issued.active.Keys));
        HistoryGrowsTransitive(t.book.history, issued.history, u.book.history);
      case InterceptCall(_) => NothingMoved(t.book.history);
      case ReleaseCall(s, text) =>
        NothingMoved(t.book.history);
        if s in t.book.active {
          RetiredKeepsBook(t.book, s, Manual(text), false, t.round);
          RetiredGrows(t.book, s, Manual(text), false, t.round);
        }
    }
  }

  /** After any run from the beginning: the window holds the last rounds' records, so every statistic is a sum over
      these; versions are 1..n in issue order; the active bans are the unreleased history; history only grows. */
  lemma {:induction false} RunsKeepSound(policy: Policy, render: seq<int> -> int, calls: seq<Call>)
    requires policy.Valid()
    ensures var t := Run(policy, render, EMPTY, calls);
      && Sound(policy, t) && t.window == LastRounds(Records(render, calls), policy.windowRounds)
      && t.round == |Records(render, calls)|
  {
    if calls != [] {
      var earlier, last := calls[..|calls| - 1], calls[|calls| - 1];
      RunsKeepSound(policy, render, earlier);
      AfterKeepsSound(policy, render, Run(policy, render, EMPTY, earlier), last);
      if last.ObserveCall? {
        WindowOfRun(Records(render, earlier), BatchRecord(render, last.defs, last.accepted), policy.windowRounds);
      }
    }
  }

  lemma {:induction false} RunsKeepHistory(policy: Policy, render: seq<int> -> int, t: State, calls: seq<Call>)
    requires policy.Valid() && Sound(policy, t)
    ensures var u := Run(policy, render, t, calls); Sound(policy, u) && HistoryGrows(t.book.history, u.book.history)
  {
    if calls == [] {
      NothingMoved(t.book.history);
    } else {
      var earlier, last := calls[..|calls| - 1], calls[|calls| - 1];
      RunsKeepHistory(policy, render, t, earlier);
      var m := Run(policy, render, t, earlier);
      AfterKeepsSound(policy, render, m, last);
      HistoryGrowsTransitive(t.book.history, m.book.history, After(policy, render, m, last).book.history);
    }
  }

  predicate RatesOk(ban: Ban) {
    0.0 <= ban.share <= 1.0 && 0.0 <= ban.acceptRate <= 1.0
  }

  predicate AllRatesOk(history: seq<Ban>) {
    forall i :: 0 <= i < |history| ==> RatesOk(history[i])
  }

  lemma RatioIsFraction(k: nat, n: nat)
    requires k <= n
    ensures 0.0 <= Ratio(k, n) <= 1.0
  {
  }

  lemma {:induction false} IssueKeepsRates(policy: Policy, render: seq<int> -> int, window: seq<Record>, round: nat, b: Book, keys: seq<int>)
    requires AllRatesOk(b.history) && forall i :: 0 <= i < |window| ==> OfBatch(render, window[i])
    ensures AllRatesOk(IssueAll(policy, window, round, b, keys).history)
  {
    if keys != [] {
      var k := keys[|keys| - 1];
      IssueKeepsRates(policy, render, window, round, b, keys[..|keys| - 1]);
      WindowIsFair(render, window, k);
      RatioIsFraction(WindowCount(window, k), WindowTotal(window));
      RatioIsFraction(WindowAccepts(window, k), WindowCount(window, k));
    }
  }

  lemma GrowthKeepsRates(a: seq<Ban>, b: seq<Ban>)
    requires AllRatesOk(a) && HistoryGrows(a, b) && |a| == |b|
    ensures AllRatesOk(b)
  {
    forall i | 0 <= i < |b| ensures RatesOk(b[i]) {
      assert EntryKept(a[i], b[i]);
    }
  }

  lemma AfterKeepsRates(policy: Policy, render: seq<int> -> int, t: State, call: Call)
    requires policy.Valid() && Nested(render) && Sound(policy, t) && AllRatesOk(t.book.history)
    requires forall i :: 0 <= i < |t.window| ==> OfBatch(render, t.window[i])
    ensures var u := After(policy, render, t, call);
      AllRatesOk(u.book.history) && forall i :: 0 <= i < |u.window| ==> OfBatch(render, u.window[i])
  {
    match call {
      case ObserveCall(defs, accepted) =>
        var u := Observed(policy, render, t, defs, accepted);
        BatchCounts(render, defs, accepted);
        var issued := IssueAll(policy, u.window, u.round, t.book, SortSet(CountedKeys(u.window)));
        IssueKeepsRates(policy, render, u.window, u.round, t.book, SortSet(CountedKeys(u.window)));
        IssueKeepsBook(policy, u.window, u.round, t.book, SortSet(CountedKeys(u.window)));
        ReviewKeepsBook(policy, u.window, u.round, issued, SortSet(issued.active.Keys));
        GrowthKeepsRates(issued.history, u.book.history);
      case InterceptCall(_) =>
      case ReleaseCall(s, text) =>
        if s in t.book.active {
          RetiredKeepsBook(t.book, s, Manual(text), false, t.round);
          RetiredGrows(t.book, s, Manual(text), false, t.round);
          GrowthKeepsRates(t.book.history, Released(t, s, text).book.history);
        }
    }
  }

  /** Whatever was ever banned, its recorded share and acceptance rate are fractions. */
  lemma {:induction false} RunsKeepRates(policy: Policy, render: seq<int> -> int, calls: seq<Call>)
    requires policy.Valid() && Nested(render)
    ensures var t := Run(policy, render, EMPTY, calls);
      AllRatesOk(t.book.history) && forall i :: 0 <= i < |t.window| ==> OfBatch(render, t.window[i])
  {
    if calls != [] {
      var earlier := calls[..|calls| - 1];
      RunsKeepRates(policy, render, earlier);
      RunsKeepSound(policy, render, earlier);
      AfterKeepsRates(policy, render, Run(policy, render, EMPTY, earlier), calls[|calls| - 1]);
    }
  }

  /** A tracker restored from a snapshot taken at any point of a run answers every later call as the original does. */
  lemma RestoredAnswersAlike(policy: Policy, render: seq<int> -> int, before: seq<Call>, later: seq<Call>)
    requires policy.Valid()
    ensures var t := Run(policy, render, EMPTY, before); var restored := Restored(PayloadOf(t), policy);
      && restored.Ok?
      && Answers(policy, render, restored.value, later) == Answers(policy, render, t, later)
      && Run(policy, render, restored.value, later) == Run(policy, render, t, later)
  {
    RunsKeepSound(policy, render, before);
    RestoreUndoesSnapshot(Run(policy, render, EMPTY, before), policy);
  }
}
