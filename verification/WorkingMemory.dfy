// active_agent_platform/memory.py: the bounded working memory, its eviction and its counters.
// Time is an integer, contents are opaque, ids and kinds are integers ordered like the original strings.

module BoundedStore {

  datatype Entry = Entry(id: int, importance: real, createdAt: int, expiresAt: int)

  /** The eviction order: importance, then time of creation, then id; the least entry is the victim. */
  predicate Above(a: Entry, b: Entry) {
    a.importance > b.importance
    || (a.importance == b.importance && (a.createdAt > b.createdAt || (a.createdAt == b.createdAt && a.id > b.id)))
  }

  /** The listing order used by `entries` and `rebuild`: importance and time down, but ids up. */
  predicate ListedBefore(a: Entry, b: Entry) {
    a.importance > b.importance
    || (a.importance == b.importance && (a.createdAt > b.createdAt || (a.createdAt == b.createdAt && a.id < b.id)))
  }

  predicate Tied(a: Entry, b: Entry) {
    a.importance == b.importance && a.createdAt == b.createdAt
  }

  ghost predicate UniqueIds(s: set<Entry>) {
    forall a, b :: a in s && b in s && a.id == b.id ==> a == b
  }

  function Min(a: nat, b: nat): nat { if a < b then a else b }

  /** `t` holds the `k` greatest entries of `s`, or all of them. */
  ghost predicate IsTop(s: set<Entry>, k: nat, t: set<Entry>) {
    t <= s && |t| == Min(k, |s|) && forall a, b :: a in t && b in s && b !in t ==> Above(a, b)
  }

  /** The first `k` of `s` in listing order. */
  ghost predicate IsHead(s: set<Entry>, k: nat, t: set<Entry>) {
    t <= s && |t| == Min(k, |s|) && forall a, b :: a in t && b in s && b !in t ==> ListedBefore(a, b)
  }

  lemma SameSizeSame<T>(a: set<T>, b: set<T>)
    requires |a| == |b| && a <= b
    ensures a == b
  {
    assert b == a + (b - a);
    assert |b| == |a| + |b - a|;
  }

  lemma DifferentOfSameSize(a: set<Entry>, b: set<Entry>) returns (x: Entry, y: Entry)
    requires |a| == |b| && a != b
    ensures x in a && x !in b && y in b && y !in a
  {
    if a <= b {
      SameSizeSame(a, b);
    }
    if b <= a {
      SameSizeSame(b, a);
    }
    x :| x in a && x !in b;
    y :| y in b && y !in a;
  }

  lemma TopUnique(s: set<Entry>, k: nat, t: set<Entry>, u: set<Entry>)
    requires IsTop(s, k, t) && IsTop(s, k, u)
    ensures t == u
  {
    if t != u {
      var x, y := DifferentOfSameSize(t, u);
    }
  }

  lemma HeadUnique(s: set<Entry>, k: nat, t: set<Entry>, u: set<Entry>)
    requires IsHead(s, k, t) && IsHead(s, k, u)
    ensures t == u
  {
    if t != u {
      var x, y := DifferentOfSameSize(t, u);
    }
  }

  // ---- One entry at a time.

  ghost predicate IsVictim(s: set<Entry>, v: Entry) {
    v in s && forall a :: a in s && a != v ==> Above(a, v)
  }

  lemma VictimExists(s: set<Entry>) returns (v: Entry)
    requires s != {} && UniqueIds(s)
    ensures IsVictim(s, v)
    decreases |s|
  {
    var x :| x in s;
    var rest := s - {x};
    if rest == {} {
      v := x;
      assert forall a :: a in s && a != v ==> a in rest;
    } else {
      var w := VictimExists(rest);
      v := if Above(w, x) then x else w;
      forall a | a in s && a != v ensures Above(a, v) {
        if a != x && a != w {
          assert a in rest && Above(a, w);
        }
      }
    }
  }

  /** `after` is what `_insert` leaves of `store` once `e` is offered. */
  ghost predicate IsInserted(store: set<Entry>, e: Entry, k: nat, after: set<Entry>) {
    if |store + {e}| <= k then after == store + {e}
    else exists v :: IsVictim(store + {e}, v) && after == store + {e} - {v}
  }

  /** Inserting into the top of what came before gives the top of everything. */
  lemma InsertedIsTop(s: set<Entry>, k: nat, store: set<Entry>, e: Entry, after: set<Entry>)
    requires k >= 1 && e !in s && UniqueIds(s + {e}) && IsTop(s, k, store) && IsInserted(store, e, k, after)
    ensures IsTop(s + {e}, k, after)
  {
    var all := s + {e};
    assert |all| == |s| + 1 && |store + {e}| == |store| + 1;
    if |store + {e}| <= k {
      SameSizeSame(store, s);
    } else {
      var v :| IsVictim(store + {e}, v) && after == store + {e} - {v};
      assert |after| == |store|;
      forall a, b | a in after && b in all && b !in after ensures Above(a, b) {
        if b != v {
          // b was dropped earlier: everything kept then was above it, the victim included.
          assert b in s && b !in store;
          if a == e {
            assert v != e && Above(v, b) && Above(e, v);
          }
        }
      }
    }
  }

  /** The store after offering a list of entries one by one to an empty one. */
  ghost predicate Online(offered: seq<Entry>, k: nat, store: set<Entry>)
    decreases |offered|
  {
    if offered == [] then store == {}
    else
      var last := |offered| - 1;
      exists before :: Online(offered[..last], k, before) && IsInserted(before, offered[last], k, store)
  }

  ghost predicate FreshIds(offered: seq<Entry>) {
    forall i, j :: 0 <= i < j < |offered| ==> offered[i].id != offered[j].id
  }

  function Offered(offered: seq<Entry>): set<Entry> {
    set e | e in offered
  }

  lemma OfferedStep(offered: seq<Entry>)
    requires offered != [] && FreshIds(offered)
    ensures var last := |offered| - 1;
      Offered(offered) == Offered(offered[..last]) + {offered[last]} && offered[last] !in Offered(offered[..last]) && UniqueIds(Offered(offered))
  {
    var last := |offered| - 1;
    assert offered == offered[..last] + [offered[last]];
    forall a, b | a in Offered(offered) && b in Offered(offered) && a.id == b.id ensures a == b {
      var i :| 0 <= i < |offered| && offered[i] == a;
      var j :| 0 <= j < |offered| && offered[j] == b;
    }
    forall i | 0 <= i < last ensures offered[..last][i] != offered[last] {
      assert offered[i].id != offered[last].id;
    }
  }

  /** Online eviction refines offline selection: the store holds exactly the `k` greatest entries ever offered. */
  lemma {:induction false} OnlineIsTop(offered: seq<Entry>, k: nat, store: set<Entry>)
    requires k >= 1 && FreshIds(offered) && Online(offered, k, store)
    ensures IsTop(Offered(offered), k, store)
    decreases |offered|
  {
    if offered == [] {
    } else {
      var last := |offered| - 1;
      var before :| Online(offered[..last], k, before) && IsInserted(before, offered[last], k, store);
      OnlineIsTop(offered[..last], k, before);
      OfferedStep(offered);
      InsertedIsTop(Offered(offered[..last]), k, before, offered[last], store);
    }
  }

  // ---- Keeping track of a store that nothing but insertion changes.

  ghost predicate NewId(offered: seq<Entry>, e: Entry) {
    forall i :: 0 <= i < |offered| ==> offered[i].id != e.id
  }

  /** As long as nothing else interferes, the store is exactly the greatest entries of all that was offered. */
  ghost predicate Tracks(undisturbed: bool, offered: seq<Entry>, k: nat, store: set<Entry>) {
    undisturbed ==> FreshIds(offered) && IsTop(Offered(offered), k, store)
  }

  lemma TracksInsertion(undisturbed: bool, offered: seq<Entry>, k: nat, store: set<Entry>, e: Entry, after: set<Entry>)
    requires k >= 1 && Tracks(undisturbed, offered, k, store) && IsInserted(store, e, k, after)
    ensures Tracks(undisturbed && NewId(offered, e), offered + [e], k, after)
  {
    if undisturbed && NewId(offered, e) {
      var more := offered + [e];
      assert FreshIds(more);
      assert more[..|offered|] == offered;
      OfferedStep(more);
      InsertedIsTop(Offered(offered), k, store, e, after);
    }
  }

  /** There is only one such store. */
  lemma TracksExactly(offered: seq<Entry>, k: nat, store: set<Entry>, t: set<Entry>)
    requires Tracks(true, offered, k, store)
    ensures IsTop(Offered(offered), k, t) <==> t == store
  {
    if IsTop(Offered(offered), k, t) {
      TopUnique(Offered(offered), k, t, store);
    }
  }

  /** Nothing tied straddles the cut between what is kept and what is not. */
  ghost predicate CleanCut(s: set<Entry>, t: set<Entry>) {
    forall a, b :: a in t && b in s && b !in t ==> !Tied(a, b)
  }

  /** Rebuilding from the same facts keeps the same entries exactly when no tie straddles the cut: eviction breaks
      ties towards larger ids, listing towards smaller ones. */
  lemma RebuildAgreesExactly(s: set<Entry>, k: nat, t: set<Entry>, u: set<Entry>)
    requires IsTop(s, k, t) && IsHead(s, k, u)
    ensures t == u <==> CleanCut(s, t)
  {
    if CleanCut(s, t) {
      forall a, b | a in t && b in s && b !in t ensures ListedBefore(a, b) {
        assert Above(a, b) && !Tied(a, b);
      }
      assert IsHead(s, k, t);
      HeadUnique(s, k, t, u);
    } else {
      var a, b :| a in t && b in s && b !in t && Tied(a, b);
      assert Above(a, b);
      assert !ListedBefore(a, b);
    }
  }

  /** Two equally important entries of the same moment, room for one: eviction and rebuilding disagree. */
  lemma TiesDisagree()
    ensures var a, b := Entry(1, 0.5, 0, 10), Entry(2, 0.5, 0, 10);
      IsTop({a, b}, 1, {b}) && IsHead({a, b}, 1, {a})
  {
    var a, b := Entry(1, 0.5, 0, 10), Entry(2, 0.5, 0, 10);
    assert a != b && |{a, b}| == 2 && |{a}| == 1 && |{b}| == 1;
  }
}

module WorkingMemory {
  import opened Wrappers
  import opened Sorting
  import opened BoundedStore

  datatype WriteOutcome = Stored | DuplicateId | RejectedByPolicy

  datatype WriteResult = WriteResult(outcome: WriteOutcome, evicted: Option<int>)

  datatype MemoryError = InvalidTtl | InvalidEntry | RepeatedFact

  /** The id, kind or source that is the empty string. */
  const EMPTY_NAME := 0

  /** A persistent fact to rebuild an entry from. */
  datatype Fact = Fact(source: int, kind: int, entry: Entry)

  /** The checks an entry makes when it is created. */
  predicate ValidEntry(e: Entry, kind: int) {
    e.id != EMPTY_NAME && kind != EMPTY_NAME && 0.0 <= e.importance <= 1.0 && e.createdAt < e.expiresAt
  }

  predicate ValidFact(f: Fact) {
    f.source != EMPTY_NAME && ValidEntry(f.entry, f.kind)
  }

  /** A fact names its source, id and kind, has an importance between 0 and 1, and expires after it was created. */
  predicate WellFounded(f: Fact) {
    && f.source != EMPTY_NAME && f.entry.id != EMPTY_NAME && f.kind != EMPTY_NAME
    && f.entry.importance >= 0.0 && f.entry.importance <= 1.0
    && f.entry.expiresAt > f.entry.createdAt
  }

  function Values(entries: map<int, Entry>): set<Entry> {
    set id | id in entries :: entries[id]
  }

  ghost predicate Keyed(entries: map<int, Entry>) {
    forall id :: id in entries ==> entries[id].id == id
  }

  lemma ValuesSize(entries: map<int, Entry>)
    requires Keyed(entries)
    ensures |Values(entries)| == |entries| && UniqueIds(Values(entries))
    decreases |entries|
  {
    if k :| k in entries.Keys {
      ValuesRemove(entries, k);
      ValuesSize(entries - {k});
      assert entries[k] in Values(entries);
      UniqueWithOneMore(entries, k);
    } else {
      assert forall id :: id !in entries;
      assert entries == map[] && Values(entries) == {};
    }
  }

  lemma UniqueWithOneMore(entries: map<int, Entry>, k: int)
    requires Keyed(entries) && k in entries
    ensures UniqueIds(Values(entries))
  {
    forall a, b | a in Values(entries) && b in Values(entries) && a.id == b.id ensures a == b {
      assert entries[a.id] == a && entries[b.id] == b;
    }
  }

  lemma ValuesInsert(entries: map<int, Entry>, e: Entry)
    requires Keyed(entries) && e.id !in entries
    ensures Keyed(entries[e.id := e]) && Values(entries[e.id := e]) == Values(entries) + {e} && e !in Values(entries)
    ensures |entries[e.id := e]| == |entries| + 1
  {
    var more := entries[e.id := e];
    forall v ensures v in Values(more) <==> v in Values(entries) + {e} {
      if v in Values(entries) {
        var id :| id in entries && entries[id] == v;
        assert more[id] == v;
      }
      assert more[e.id] == e;
    }
    assert more.Keys == entries.Keys + {e.id};
    assert |more.Keys| == |more| && |entries.Keys| == |entries|;
  }

  lemma ValuesRemove(entries: map<int, Entry>, k: int)
    requires Keyed(entries) && k in entries
    ensures Keyed(entries - {k}) && Values(entries - {k}) == Values(entries) - {entries[k]}
    ensures |entries - {k}| == |entries| - 1
  {
    var less := entries - {k};
    forall v ensures v in Values(less) <==> v in Values(entries) - {entries[k]} {
      if v in Values(entries) && v != entries[k] {
        var id :| id in entries && entries[id] == v;
        assert id in less;
      }
    }
    assert less.Keys == entries.Keys - {k};
    assert |less.Keys| == |less| && |entries.Keys| == |entries|;
  }

  function Expired(entries: map<int, Entry>, now: int): set<int> {
    set id | id in entries && entries[id].expiresAt <= now
  }

  function Living(entries: map<int, Entry>, now: int): map<int, Entry> {
    entries - Expired(entries, now)
  }

  lemma LivingSize(entries: map<int, Entry>, now: int)
    ensures |Living(entries, now)| == |entries| - |Expired(entries, now)|
  {
    var gone := Expired(entries, now);
    assert Living(entries, now).Keys == entries.Keys - gone && gone <= entries.Keys;
    assert |entries.Keys| == |entries.Keys - gone| + |gone| by {
      assert entries.Keys == (entries.Keys - gone) + gone;
    }
    assert |Living(entries, now).Keys| == |Living(entries, now)| && |entries.Keys| == |entries|;
  }

  class WorkingMemory {
    const capacity: nat
    const defaultTtl: int
    var entries: map<int, Entry>
    var version: nat
    var stored: nat
    var duplicates: nat
    var rejected: nat
    var expired: nat
    var evicted: nat
    var rebuilds: nat
    /** Entries that came in through `rebuild` less those `clear` and `rebuild` threw away; neither counts them. */
    ghost var uncounted: int
    /** What was offered since the store was last empty or cleared, and whether ids were fresh and nothing expired since. */
    ghost var offered: seq<Entry>
    ghost var undisturbed: bool

    /** Nothing is lost: what was offered and not a duplicate is here, evicted or expired. */
    ghost predicate Valid()
      reads this
    {
      && capacity >= 1 && defaultTtl > 0 && Keyed(entries) && |entries| <= capacity
      && stored + rejected + uncounted == |entries| + evicted + expired
      && Tracks(undisturbed, offered, capacity, Values(entries))
    }

    constructor (capacity: nat, defaultTtl: int)
      requires capacity >= 1 && defaultTtl > 0
      ensures Valid() && this.capacity == capacity && this.defaultTtl == defaultTtl && entries == map[] && uncounted == 0
      ensures offered == [] && undisturbed
      ensures version == stored == duplicates == rejected == expired == evicted == rebuilds == 0
    {
      this.capacity, this.defaultTtl, entries := capacity, defaultTtl, map[];
      version, stored, duplicates, rejected, expired, evicted, rebuilds := 0, 0, 0, 0, 0, 0, 0;
      uncounted, offered, undisturbed := 0, [], true;
    }

    /** `reclaim`: exactly the entries whose time has come are dropped. */
    method Reclaim(now: int) returns (gone: set<int>)
      requires Valid()
      modifies this`entries, this`expired, this`version, this`undisturbed
      ensures Valid() && entries == Living(old(entries), now) && gone == Expired(old(entries), now)
      ensures forall id :: id in gone <==> id in old(entries) && old(entries)[id].expiresAt <= now
      ensures forall id :: id in entries <==> id in old(entries) && old(entries)[id].expiresAt > now
      ensures undisturbed == (old(undisturbed) && gone == {})
      ensures expired == old(expired) + |gone|
      ensures version == old(version) + if gone == {} then 0 else 1
    {
      gone := Expired(entries, now);
      LivingSize(entries, now);
      if gone != {} {
        entries := entries - gone;
        expired := expired + |gone|;
        version := version + 1;
        undisturbed := false;
      } else {
        assert entries - {} == entries;
      }
    }

    /** `min` over the stored values by (importance, created_at, memory_id). */
    method Victim() returns (v: Entry)
      requires Keyed(entries) && |entries| > 0
      ensures IsVictim(Values(entries), v) && v.id in entries && entries[v.id] == v
    {
      ValuesSize(entries);
      ghost var w := VictimExists(Values(entries));
      v :| v in Values(entries) && forall a :: a in Values(entries) && a != v ==> Above(a, v);
    }

    /** Store `e`, then evict the least entry if there are too many; that may be `e` itself. */
    method Offer(e: Entry) returns (out: Option<int>)
      requires Keyed(entries) && |entries| <= capacity && e.id !in entries
      modifies this`entries
      ensures Keyed(entries) && |entries| == |old(entries)| + 1 - (if out.Some? then 1 else 0) && |entries| <= capacity
      ensures IsInserted(Values(old(entries)), e, capacity, Values(entries))
      ensures out == Some(e.id) <==> e !in Values(entries)
    {
      ghost var store := Values(entries);
      ValuesInsert(entries, e);
      entries := entries[e.id := e];
      ValuesSize(entries);
      out := None;
      if |entries| > capacity {
        var victim := Victim();
        ValuesRemove(entries, victim.id);
        entries := entries - {victim.id};
        out := Some(victim.id);
        assert victim.id == e.id <==> victim == e;
      }
    }

    /** The same, with the offer noted. */
    method OfferTracked(e: Entry) returns (out: Option<int>)
      requires capacity >= 1 && Keyed(entries) && |entries| <= capacity && e.id !in entries
      requires Tracks(undisturbed, offered, capacity, Values(entries))
      modifies this`entries, this`offered, this`undisturbed
      ensures Keyed(entries) && |entries| == |old(entries)| + 1 - (if out.Some? then 1 else 0) && |entries| <= capacity
      ensures IsInserted(Values(old(entries)), e, capacity, Values(entries))
      ensures out == Some(e.id) <==> e !in Values(entries)
      ensures offered == old(offered) + [e] && undisturbed == (old(undisturbed) && NewId(old(offered), e))
      ensures Tracks(undisturbed, offered, capacity, Values(entries))
    {
      ghost var store := Values(entries);
      out := Offer(e);
      TracksInsertion(undisturbed, offered, capacity, store, e, Values(entries));
      undisturbed := undisturbed && NewId(offered, e);
      offered := offered + [e];
    }

    /** Count what became of an entry that is not a duplicate. */
    method Settle(e: Entry) returns (r: WriteResult)
      requires Valid() && e.id !in entries
      modifies this`entries, this`version, this`stored, this`rejected, this`evicted, this`offered, this`undisturbed
      ensures Valid() && !r.outcome.DuplicateId?
      ensures IsInserted(Values(old(entries)), e, capacity, Values(entries)) && (r.outcome.Stored? <==> e in Values(entries))
      ensures offered == old(offered) + [e] && undisturbed == (old(undisturbed) && NewId(old(offered), e))
      ensures version == old(version) + 1 && stored == old(stored) + (if r.outcome.Stored? then 1 else 0)
      ensures rejected == old(rejected) + (if r.outcome.RejectedByPolicy? then 1 else 0)
      ensures evicted == old(evicted) + (if r.evicted.Some? then 1 else 0)
    {
      var out := OfferTracked(e);
      if out.Some? {
        evicted := evicted + 1;
      }
      version := version + 1;
      if out == Some(e.id) {
        rejected := rejected + 1;
        return WriteResult(RejectedByPolicy, out);
      }
      stored := stored + 1;
      return WriteResult(Stored, out);
    }

    /** `_insert`: refuse a known id, otherwise offer the entry and count what became of it. */
    method Insert(e: Entry, now: int) returns (r: WriteResult)
      requires Valid()
      modifies this`entries, this`expired, this`version, this`stored, this`duplicates, this`rejected, this`evicted
      modifies this`offered, this`undisturbed
      ensures Valid()
      ensures r.outcome.DuplicateId? <==> e.id in Living(old(entries), now)
      ensures r.outcome.DuplicateId? ==> entries == Living(old(entries), now)
      ensures !r.outcome.DuplicateId? ==> IsInserted(Values(Living(old(entries), now)), e, capacity, Values(entries))
      ensures !r.outcome.DuplicateId? ==> (r.outcome.Stored? <==> e in Values(entries))
      ensures stored == old(stored) + (if r.outcome.Stored? then 1 else 0)
      ensures duplicates == old(duplicates) + (if r.outcome.DuplicateId? then 1 else 0)
      ensures rejected == old(rejected) + (if r.outcome.RejectedByPolicy? then 1 else 0)
      ensures evicted == old(evicted) + (if r.evicted.Some? then 1 else 0)
      ensures offered == old(offered) + (if r.outcome.DuplicateId? then [] else [e])
      ensures version == old(version) + (if Expired(old(entries), now) == {} then 0 else 1) + (if r.outcome.DuplicateId? then 0 else 1)
      ensures undisturbed == (old(undisturbed) && Expired(old(entries), now) == {} && (r.outcome.DuplicateId? || NewId(old(offered), e)))
    {
      var gone := Reclaim(now);
      if e.id in entries {
        duplicates := duplicates + 1;
        return WriteResult(DuplicateId, None);
      }
      r := Settle(e);
    }

    /** Fresh ids, no expiry: the store is the one set of the `capacity` greatest entries offered so far. */
    lemma HoldsExactlyTheGreatest(t: set<Entry>)
      requires Valid() && undisturbed
      ensures FreshIds(offered) && (IsTop(Offered(offered), capacity, t) <==> t == Values(entries))
    {
      TracksExactly(offered, capacity, Values(entries), t);
    }

    /** Whatever was offered and is gone was less important than everything kept, or as important and older, or tied in both
        with a smaller id. */
    lemma KeptOutranksLost(a: Entry, b: Entry)
      requires Valid() && undisturbed && a in Values(entries) && b in Offered(offered) && b !in Values(entries)
      ensures || a.importance > b.importance
        || (a.importance == b.importance && a.createdAt > b.createdAt)
        || (a.importance == b.importance && a.createdAt == b.createdAt && a.id > b.id)
    {
      assert Above(a, b);
    }

    function NewEntry(id: int, importance: real, ttl: Option<int>, now: int): Entry {
      Entry(id, importance, now, now + if ttl.Some? then ttl.value else defaultTtl)
    }

    method Remember(id: int, kind: int, importance: real, ttl: Option<int>, now: int) returns (r: Result<WriteResult, MemoryError>)
      requires Valid()
      modifies this`entries, this`expired, this`version, this`stored, this`duplicates, this`rejected, this`evicted
      modifies this`offered, this`undisturbed
      ensures Valid()
      ensures r.Ok? <==> (ttl.Some? ==> ttl.value > 0) && id != EMPTY_NAME && kind != EMPTY_NAME && 0.0 <= importance <= 1.0
      ensures r.Err? ==> entries == old(entries) && stored == old(stored) && version == old(version) && expired == old(expired)
      ensures r.Err? ==> offered == old(offered) && undisturbed == old(undisturbed)
      ensures r.Ok? ==> offered == old(offered) + (if r.value.outcome.DuplicateId? then [] else [NewEntry(id, importance, ttl, now)])
      ensures r.Ok? ==> undisturbed == (old(undisturbed) && Expired(old(entries), now) == {}
                                        && (r.value.outcome.DuplicateId? || NewId(old(offered), NewEntry(id, importance, ttl, now))))
      ensures r.Ok? && r.value.outcome.DuplicateId? ==> entries == Living(old(entries), now)
      ensures r.Ok? && !r.value.outcome.DuplicateId? ==>
        IsInserted(Values(Living(old(entries), now)), NewEntry(id, importance, ttl, now), capacity, Values(entries))
    {
      var seconds := if ttl.Some? then ttl.value else defaultTtl;
      if seconds <= 0 {
        return Err(InvalidTtl);
      }
      var entry := Entry(id, importance, now, now + seconds);
      if !ValidEntry(entry, kind) {
        return Err(InvalidEntry);
      }
      var w := Insert(entry, now);
      return Ok(w);
    }

    method Get(id: int, now: int) returns (e: Option<Entry>)
      requires Valid()
      modifies this`entries, this`expired, this`version, this`undisturbed
      ensures Valid() && entries == Living(old(entries), now) && undisturbed == (old(undisturbed) && Expired(old(entries), now) == {})
      ensures e.Some? <==> id in entries
      ensures e.Some? ==> e.value == entries[id] && e.value.expiresAt > now
    {
      var gone := Reclaim(now);
      return if id in entries then Some(entries[id]) else None;
    }

    method Clear()
      requires Valid()
      modifies this`entries, this`version, this`uncounted, this`offered, this`undisturbed
      ensures Valid() && entries == map[] && offered == [] && undisturbed
      ensures version == old(version) + if old(entries) == map[] then 0 else 1
    {
      uncounted := uncounted - |entries|;
      offered, undisturbed := [], true;
      if |entries| > 0 {
        entries := map[];
        version := version + 1;
      } else {
        assert entries.Keys == {};
        assert entries == map[];
      }
    }

    /** The loop of `rebuild`: the facts still alive, unless one is invalid or an id comes twice. */
    method Candidates(facts: seq<Fact>, now: int) returns (r: Result<seq<Entry>, MemoryError>)
      ensures r.Ok? <==> (forall f :: f in facts ==> WellFounded(f)) && FreshIds(Alive(Entries(facts), now))
      ensures r.Ok? ==> r.value == Alive(Entries(facts), now)
    {
      var alive: seq<Entry> := [];
      for i := 0 to |facts|
        invariant forall k :: 0 <= k < i ==> WellFounded(facts[k])
        invariant alive == Alive(Entries(facts)[..i], now) && FreshIds(alive)
      {
        assert facts[i] in facts && (ValidFact(facts[i]) <==> WellFounded(facts[i]));
        if !ValidFact(facts[i]) {
          return Err(InvalidEntry);
        }
        var e := facts[i].entry;
        AliveNext(Entries(facts), now, i);
        if e.expiresAt > now {
          if exists k :: 0 <= k < |alive| && alive[k].id == e.id {
            RepeatedId(Entries(facts), now, i);
            return Err(RepeatedFact);
          }
          alive := alive + [e];
        }
      }
      assert Entries(facts)[..|facts|] == Entries(facts);
      return Ok(alive);
    }

    /** `rebuild`: throw everything away and keep the first `capacity` of the facts still alive, in listing order. */
    method Rebuild(facts: seq<Fact>, now: int) returns (r: Result<seq<int>, MemoryError>)
      requires Valid()
      modifies this`entries, this`version, this`rebuilds, this`uncounted, this`undisturbed
      ensures Valid()
      ensures r.Ok? <==> (forall f :: f in facts ==> WellFounded(f)) && FreshIds(Alive(Entries(facts), now))
      ensures r.Ok? ==> IsHead(Offered(Alive(Entries(facts), now)), capacity, Values(entries)) && rebuilds == old(rebuilds) + 1
      ensures r.Err? ==> entries == old(entries) && version == old(version)
      ensures r.Ok? ==> version == old(version) + 1 && |r.value| == |entries| && forall i :: 0 <= i < |r.value| ==> r.value[i] in entries
      ensures r.Ok? ==> forall i, j :: 0 <= i < j < |r.value| ==> InListingOrder(entries[r.value[i]], entries[r.value[j]])
    {
      var candidates := Candidates(facts, now);
      if candidates.Err? {
        return Err(candidates.error);
      }
      var alive := candidates.value;
      var ordered := Sort(alive, NotBehind);
      ListingOrder(alive, ordered);
      var retained := if |ordered| <= capacity then ordered else ordered[..capacity];
      HeadOfListing(alive, ordered, retained, capacity);
      var kept := Keep(retained);
      ListedIds(kept, retained);
      uncounted := uncounted + |kept| - |entries|;
      undisturbed := false;
      entries := kept;
      version := version + 1;
      rebuilds := rebuilds + 1;
      return Ok(Ids(retained));
    }
  }

  function Entries(facts: seq<Fact>): (r: seq<Entry>)
    ensures |r| == |facts| && forall i :: 0 <= i < |facts| ==> r[i] == facts[i].entry
  {
    seq(|facts|, i requires 0 <= i < |facts| => facts[i].entry)
  }

  lemma AliveNext(facts: seq<Entry>, now: int, i: nat)
    requires i < |facts|
    ensures Alive(facts[..i + 1], now) == if facts[i].expiresAt <= now then Alive(facts[..i], now) else Alive(facts[..i], now) + [facts[i]]
  {
    assert facts[..i + 1][..i] == facts[..i];
  }

  lemma RepeatedId(facts: seq<Entry>, now: int, i: nat)
    requires i < |facts| && facts[i].expiresAt > now
    requires exists k :: 0 <= k < |Alive(facts[..i], now)| && Alive(facts[..i], now)[k].id == facts[i].id
    ensures !FreshIds(Alive(facts, now))
  {
    var alive := Alive(facts[..i], now);
    var k :| 0 <= k < |alive| && alive[k].id == facts[i].id;
    AliveNext(facts, now, i);
    AliveGrows(facts, now, i + 1);
    assert (alive + [facts[i]])[k].id == (alive + [facts[i]])[|alive|].id;
  }

  /** What is alive among the first facts comes first among all. */
  lemma {:induction false} AliveGrows(facts: seq<Entry>, now: int, n: nat)
    requires n <= |facts|
    ensures Alive(facts[..n], now) <= Alive(facts, now)
    ensures FreshIds(Alive(facts, now)) ==> FreshIds(Alive(facts[..n], now))
    decreases |facts|
  {
    if n < |facts| {
      AliveGrows(facts[..|facts| - 1], now, n);
      assert facts[..|facts| - 1][..n] == facts[..n];
    } else {
      assert facts[..n] == facts;
    }
  }

  function Alive(facts: seq<Entry>, now: int): seq<Entry> {
    if facts == [] then []
    else Alive(facts[..|facts| - 1], now) + if facts[|facts| - 1].expiresAt <= now then [] else [facts[|facts| - 1]]
  }

  function Ids(s: seq<Entry>): (ids: seq<int>)
    ensures |ids| == |s| && forall i :: 0 <= i < |s| ==> ids[i] == s[i].id
  {
    seq(|s|, i requires 0 <= i < |s| => s[i].id)
  }

  /** The dictionary with one entry per id. */
  ghost predicate Holds(m: map<int, Entry>, s: seq<Entry>) {
    Keyed(m) && |m| == |s| && Values(m) == Offered(s) && forall id :: id in m ==> id in Ids(s)
  }

  lemma HoldsStep(m: map<int, Entry>, s: seq<Entry>, i: nat)
    requires i < |s| && FreshIds(s) && Holds(m, s[..i])
    ensures Holds(m[s[i].id := s[i]], s[..i + 1])
  {
    assert s[..i + 1] == s[..i] + [s[i]];
    forall j | 0 <= j < i ensures Ids(s[..i])[j] != s[i].id {
      assert s[j].id != s[i].id;
    }
    ValuesInsert(m, s[i]);
    assert Ids(s[..i + 1]) == Ids(s[..i]) + [s[i].id];
  }

  /** More important first, then newer, then by id. */
  predicate InListingOrder(a: Entry, b: Entry) {
    || a.importance > b.importance
    || (a.importance == b.importance && a.createdAt > b.createdAt)
    || (a.importance == b.importance && a.createdAt == b.createdAt && a.id < b.id)
  }

  lemma ListedIds(m: map<int, Entry>, s: seq<Entry>)
    requires Holds(m, s) && Listing(s)
    ensures |Ids(s)| == |m| && forall i :: 0 <= i < |s| ==> Ids(s)[i] in m && m[Ids(s)[i]] == s[i]
    ensures forall i, j :: 0 <= i < j < |s| ==> InListingOrder(s[i], s[j])
  {
    forall i | 0 <= i < |s| ensures s[i].id in m && m[s[i].id] == s[i] {
      assert s[i] in Values(m);
    }
    forall i, j | 0 <= i < j < |s| ensures InListingOrder(s[i], s[j]) {
      assert ListedBefore(s[i], s[j]);
    }
  }

  method Keep(retained: seq<Entry>) returns (m: map<int, Entry>)
    requires FreshIds(retained)
    ensures Holds(m, retained)
  {
    m := map[];
    for i := 0 to |retained|
      invariant Holds(m, retained[..i])
    {
      HoldsStep(m, retained, i);
      m := m[retained[i].id := retained[i]];
    }
    assert retained[..|retained|] == retained;
  }

  predicate NotBehind(a: Entry, b: Entry) {
    !ListedBefore(b, a)
  }

  /** Sorting distinct ids puts every entry before all later ones. */
  ghost predicate Listing(ordered: seq<Entry>) {
    FreshIds(ordered) && forall i, j :: 0 <= i < j < |ordered| ==> ListedBefore(ordered[i], ordered[j])
  }

  lemma SameIdSameEntry(alive: seq<Entry>, a: Entry, b: Entry)
    requires FreshIds(alive) && a in alive && b in alive && a.id == b.id
    ensures a == b
  {
    var i :| 0 <= i < |alive| && alive[i] == a;
    var j :| 0 <= j < |alive| && alive[j] == b;
  }

  lemma ListingOrder(alive: seq<Entry>, ordered: seq<Entry>)
    requires FreshIds(alive) && ordered == Sort(alive, NotBehind)
    ensures Listing(ordered) && Offered(ordered) == Offered(alive)
  {
    assert TotalPreorder(NotBehind);
    SortIsSorted(alive, NotBehind);
    DistinctPermutation(alive, ordered);
    forall e ensures e in ordered <==> e in alive {
      assert e in multiset(ordered) <==> e in multiset(alive);
    }
    forall i, j | 0 <= i < j < |ordered| ensures ordered[i].id != ordered[j].id && ListedBefore(ordered[i], ordered[j]) {
      assert ordered[i] in ordered && ordered[j] in ordered && ordered[i] != ordered[j];
      assert NotBehind(ordered[i], ordered[j]);
      if ordered[i].id == ordered[j].id {
        SameIdSameEntry(alive, ordered[i], ordered[j]);
      }
    }
  }

  lemma {:induction false} OfferedSize(s: seq<Entry>)
    requires FreshIds(s)
    ensures |Offered(s)| == |s|
    decreases |s|
  {
    if s != [] {
      OfferedSize(s[..|s| - 1]);
      OfferedStep(s);
    }
  }

  lemma HeadOfListing(alive: seq<Entry>, ordered: seq<Entry>, retained: seq<Entry>, k: nat)
    requires Listing(ordered) && Offered(ordered) == Offered(alive)
    requires retained == if |ordered| <= k then ordered else ordered[..k]
    ensures Listing(retained) && |retained| <= k && IsHead(Offered(alive), k, Offered(retained))
  {
    OfferedSize(ordered);
    OfferedSize(retained);
    forall m | 0 <= m < |retained| ensures ordered[m] in Offered(retained) {
      assert retained[m] == ordered[m];
    }
    forall a, b | a in Offered(retained) && b in Offered(ordered) && b !in Offered(retained) ensures ListedBefore(a, b) {
      var i :| 0 <= i < |retained| && retained[i] == a;
      var j :| 0 <= j < |ordered| && ordered[j] == b;
    }
  }
}
