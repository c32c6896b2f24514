// domain_sdk/dna_promotion.py: Shadow/Canary campaigns over the DNA registry. Registry calls and campaign updates
// are separate transactions, so an error keeps what was written before it. Time is an integer, rates are exact.

module PromotionProtocol {
  import opened Wrappers
  import opened DnaLineage
  import opened DnaRecords

  datatype Stage = ShadowStage | CanaryStage | ActiveStage | RolledBackStage | StoppedStage

  datatype Policy = Policy(shadowSamples: nat, canarySamples: nat, shadowDuration: int, canaryDuration: int,
                           minSuccess: real, minStability: real, maxRisk: real)
  {
    predicate Valid() { shadowSamples >= 1 && canarySamples >= 1 && shadowDuration >= 0 && canaryDuration >= 0 }

    function Samples(s: Stage): nat { if s.ShadowStage? then shadowSamples else canarySamples }

    function Duration(s: Stage): int { if s.ShadowStage? then shadowDuration else canaryDuration }
  }

  datatype Campaign = Campaign(key: Key, baseline: Option<int>, stage: Stage, startedAt: int, revision: nat,
                               selection: int, proposal: int, request: int)

  datatype Observation = Observation(campaign: int, stage: Stage, successful: bool, stable: bool, risky: bool,
                                     duplicateEffect: bool, expanded: bool, recoveryFailed: bool, at: int)

  /** One row of the event table of a campaign. */
  datatype StageEntry = StageEntry(stage: Stage, at: int)

  datatype Desk = Desk(registry: Registry, campaigns: map<int, Campaign>, observations: map<int, Observation>,
                       trail: map<int, seq<StageEntry>>)

  datatype PromotionError =
    | NoCampaign | OtherRequest | NotSelected | NotEligible | SlotTaken | Finished | OtherObservation | Predates
    | EmptyReason | StaleRevision | NotActive | Refused(error: DnaError)

  /** The tables afterwards, and the error raised, if any. */
  datatype Outcome = Outcome(desk: Desk, error: Option<PromotionError>)

  predicate Live(s: Stage) {
    s.ShadowStage? || s.CanaryStage? || s.ActiveStage?
  }

  // ---- Gates.

  function Rows(observations: map<int, Observation>, campaign: int, stage: Stage): set<int> {
    set o | o in observations && observations[o].campaign == campaign && observations[o].stage == stage
  }

  function Count(observations: map<int, Observation>, rows: set<int>, wanted: Observation -> bool): nat {
    |set o | o in rows && o in observations && wanted(observations[o])|
  }

  function Rate(k: nat, n: nat): real
    requires n > 0
  {
    k as real / n as real
  }

  predicate Enough(p: Policy, observations: map<int, Observation>, campaign: int, stage: Stage) {
    |Rows(observations, campaign, stage)| >= p.Samples(stage)
  }

  /** The three thresholds on the rows of one stage. */
  predicate ThresholdsMet(p: Policy, observations: map<int, Observation>, campaign: int, stage: Stage)
    requires Rows(observations, campaign, stage) != {}
  {
    var rows := Rows(observations, campaign, stage);
    && Rate(Count(observations, rows, (o: Observation) => o.successful), |rows|) >= p.minSuccess
    && Rate(Count(observations, rows, (o: Observation) => o.stable), |rows|) >= p.minStability
    && Rate(Count(observations, rows, (o: Observation) => o.risky), |rows|) <= p.maxRisk
  }

  predicate GateMet(p: Policy, observations: map<int, Observation>, campaign: int, stage: Stage) {
    && Enough(p, observations, campaign, stage)
    && Rows(observations, campaign, stage) != {}
    && ThresholdsMet(p, observations, campaign, stage)
  }

  predicate HardStop(o: Observation) {
    o.duplicateEffect || o.expanded || o.recoveryFailed || o.risky
  }

  // ---- Operations.

  function Moved(d: Desk, c: int, stage: Stage, now: int): Desk
    requires c in d.campaigns && c in d.trail
  {
    var campaign := d.campaigns[c];
    d.(campaigns := d.campaigns[c := campaign.(stage := stage, startedAt := now, revision := campaign.revision + 1)],
       trail := d.trail[c := d.trail[c] + [StageEntry(stage, now)]])
  }

  /** `_stop`: roll an active campaign back to its baseline, or retire a version still on trial. */
  function Stop(d: Desk, c: int, now: int): Outcome
    requires c in d.campaigns && c in d.trail && OneActive(d.registry.records)
  {
    var campaign := d.campaigns[c];
    var records := d.registry.records;
    if campaign.key !in records then Outcome(d, Some(Refused(DnaError.NotFound)))
    else if campaign.stage.ActiveStage? && campaign.baseline.Some? then
      var target := Key(campaign.key.dna, campaign.baseline.value);
      if target !in records then Outcome(d, Some(Refused(DnaError.NotFound)))
      else
        var r := Rollback(d.registry, campaign.key.dna, target.version, records[campaign.key].revision, records[target].revision);
        if r.Err? then Outcome(d, Some(Refused(r.error)))
        else Outcome(Moved(d.(registry := r.value), c, RolledBackStage, now), None)
    else if records[campaign.key].status in {Shadow, Canary} then
      var r := Transition(d.registry, campaign.key, Retired, records[campaign.key].revision);
      if r.Err? then Outcome(d, Some(Refused(r.error)))
      else Outcome(Moved(d.(registry := r.value), c, StoppedStage, now), None)
    else Outcome(Moved(d, c, StoppedStage, now), None)
  }

  function Promote(d: Desk, c: int, now: int): Outcome
    requires c in d.campaigns && c in d.trail && OneActive(d.registry.records)
  {
    var campaign := d.campaigns[c];
    if campaign.key !in d.registry.records then Outcome(d, Some(Refused(DnaError.NotFound)))
    else
      var revision := d.registry.records[campaign.key].revision;
      if campaign.stage.ShadowStage? then
        var r := Transition(d.registry, campaign.key, Canary, revision);
        if r.Err? then Outcome(d, Some(Refused(r.error)))
        else Outcome(Moved(d.(registry := r.value), c, CanaryStage, now), None)
      else
        var r := Activate(d.registry, campaign.key, revision);
        if r.Err? then Outcome(d, Some(Refused(r.error)))
        else Outcome(Moved(d.(registry := r.value), c, ActiveStage, now), None)
  }

  /** `_evaluate`. */
  function Evaluate(p: Policy, d: Desk, c: int, now: int): Outcome
    requires p.Valid() && c in d.campaigns && c in d.trail && OneActive(d.registry.records)
  {
    var campaign := d.campaigns[c];
    if campaign.stage.ActiveStage? then Outcome(d, None)
    else if !Enough(p, d.observations, c, campaign.stage) || now < campaign.startedAt + p.Duration(campaign.stage) then
      Outcome(d, None)
    else if !GateMet(p, d.observations, c, campaign.stage) then Stop(d, c, now)
    else Promote(d, c, now)
  }

  function Observe(p: Policy, d: Desk, id: int, seen: Observation, now: int): Outcome
    requires p.Valid() && d.campaigns.Keys == d.trail.Keys && OneActive(d.registry.records)
  {
    var c := seen.campaign;
    if c !in d.campaigns then Outcome(d, Some(NoCampaign))
    else
      var campaign := d.campaigns[c];
      var o := seen.(stage := campaign.stage);
      if !Live(campaign.stage) then Outcome(d, Some(Finished))
      else if id in d.observations then
        Outcome(d, if d.observations[id] == o then None else Some(OtherObservation))
      else if o.at < campaign.startedAt then Outcome(d, Some(Predates))
      else
        var recorded := d.(observations := d.observations[id := o]);
        if HardStop(o) then Stop(recorded, c, now) else Evaluate(p, recorded, c, now)
  }

  function Kill(d: Desk, c: int, expected: Option<int>, now: int): Outcome
    requires d.campaigns.Keys == d.trail.Keys && OneActive(d.registry.records)
  {
    if c !in d.campaigns then Outcome(d, Some(NoCampaign))
    else if expected.Some? && d.campaigns[c].revision != expected.value then Outcome(d, Some(StaleRevision))
    else if !Live(d.campaigns[c].stage) then Outcome(d, None)
    else Stop(d, c, now)
  }

  function RollBack(d: Desk, c: int, expected: int, now: int): Outcome
    requires d.campaigns.Keys == d.trail.Keys && OneActive(d.registry.records)
  {
    if c !in d.campaigns then Outcome(d, Some(NoCampaign))
    else if d.campaigns[c].revision != expected then Outcome(d, Some(StaleRevision))
    else if !d.campaigns[c].stage.ActiveStage? then Outcome(d, Some(NotActive))
    else Stop(d, c, now)
  }

  function EvaluateCall(p: Policy, d: Desk, c: int, expected: int, now: int): Outcome
    requires p.Valid() && d.campaigns.Keys == d.trail.Keys && OneActive(d.registry.records)
  {
    if c !in d.campaigns then Outcome(d, Some(NoCampaign))
    else if d.campaigns[c].revision != expected then Outcome(d, Some(StaleRevision))
    else Evaluate(p, d, c, now)
  }

  // ---- What every operation keeps.

  /** One event of a campaign may follow another. */
  predicate Follows(p: Policy, a: StageEntry, b: StageEntry) {
    match a.stage
    case ShadowStage => b.stage.StoppedStage? || (b.stage.CanaryStage? && b.at >= a.at + p.shadowDuration)
    case CanaryStage => b.stage.StoppedStage? || (b.stage.ActiveStage? && b.at >= a.at + p.canaryDuration)
    case ActiveStage => b.stage.StoppedStage? || b.stage.RolledBackStage?
    case _ => false
  }

  predicate Continues(p: Policy, trail: seq<StageEntry>, i: nat)
    requires 1 <= i < |trail|
  {
    Follows(p, trail[i - 1], trail[i])
  }

  ghost predicate TrailOk(p: Policy, campaign: Campaign, trail: seq<StageEntry>) {
    && |trail| == campaign.revision + 1 && trail[0].stage.ShadowStage?
    && trail[|trail| - 1] == StageEntry(campaign.stage, campaign.startedAt)
    && forall i {:trigger Continues(p, trail, i)} :: 1 <= i < |trail| ==> Continues(p, trail, i)
  }

  predicate Tried(trail: seq<StageEntry>) {
    |trail| >= 2 && trail[1].stage.CanaryStage?
  }

  /** The campaign was ACTIVE at some time. */
  predicate Graduated(trail: seq<StageEntry>) {
    Tried(trail) && |trail| >= 3 && trail[2].stage.ActiveStage?
  }

  /** The gates a campaign with this history has behind it, whatever became of it later. */
  predicate GatesBehind(p: Policy, observations: map<int, Observation>, c: int, trail: seq<StageEntry>) {
    && (Tried(trail) ==> GateMet(p, observations, c, ShadowStage))
    && (Graduated(trail) ==> GateMet(p, observations, c, CanaryStage))
  }

  /** The five histories there are. */
  lemma TrailShape(p: Policy, campaign: Campaign, t: seq<StageEntry>)
    requires TrailOk(p, campaign, t)
    ensures campaign.stage.ShadowStage? ==> |t| == 1
    ensures campaign.stage.CanaryStage? ==> |t| == 2 && Tried(t)
    ensures campaign.stage.ActiveStage? ==> |t| == 3
    ensures campaign.stage.RolledBackStage? ==> |t| == 4
    ensures campaign.stage in {ActiveStage, RolledBackStage} ==> Graduated(t) && Follows(p, t[0], t[1]) && Follows(p, t[1], t[2])
    ensures |t| <= 4
  {
    assert |t| > 1 ==> Continues(p, t, 1);
    assert |t| > 2 ==> Continues(p, t, 2);
    assert |t| > 3 ==> Continues(p, t, 3);
    assert |t| > 4 ==> Continues(p, t, 4);
  }

  predicate Established(records: map<Key, Record>, key: Key) {
    key in records && records[key].status in {Active, Deprecated}
  }

  ghost predicate VersionsOk(records: map<Key, Record>, campaign: Campaign) {
    && campaign.key in records
    && (campaign.stage in {ActiveStage, RolledBackStage} ==> Established(records, campaign.key))
    && (campaign.baseline.Some? ==>
          campaign.baseline.value != campaign.key.version && Established(records, Key(campaign.key.dna, campaign.baseline.value)))
  }

  ghost predicate CampaignOk(p: Policy, d: Desk, c: int)
    requires c in d.campaigns && c in d.trail
  {
    && TrailOk(p, d.campaigns[c], d.trail[c])
    && GatesBehind(p, d.observations, c, d.trail[c])
    && VersionsOk(d.registry.records, d.campaigns[c])
  }

  ghost predicate Good(p: Policy, d: Desk) {
    && p.Valid() && Sound(d.registry) && d.campaigns.Keys == d.trail.Keys
    && (forall c {:trigger c in d.campaigns} :: c in d.campaigns ==> CampaignOk(p, d, c))
    && (forall o :: o in d.observations ==> Live(d.observations[o].stage) && d.observations[o].campaign in d.campaigns)
  }

  /** Versions only appear, and those that made it to ACTIVE stay ACTIVE or DEPRECATED. */
  ghost predicate RecordsKept(before: map<Key, Record>, after: map<Key, Record>) {
    && (forall k :: k in before ==> k in after)
    && (forall k :: Established(before, k) ==> Established(after, k))
  }

  lemma ChangedKeepsRecords(r: Registry, key: Key, to: Status)
    requires key in r.records && (r.records[key].status in {Active, Deprecated} ==> to in {Active, Deprecated})
    ensures RecordsKept(r.records, Changed(r, key, to).records)
  {
  }

  lemma CampaignKept(p: Policy, d: Desk, e: Desk, c: int)
    requires c in d.campaigns && c in d.trail && CampaignOk(p, d, c)
    requires c in e.campaigns && c in e.trail && e.campaigns[c] == d.campaigns[c] && e.trail[c] == d.trail[c]
    requires RecordsKept(d.registry.records, e.registry.records) && e.observations == d.observations
    ensures CampaignOk(p, e, c)
  {
  }

  lemma TrailGrows(p: Policy, campaign: Campaign, trail: seq<StageEntry>, stage: Stage, now: int)
    requires TrailOk(p, campaign, trail) && Follows(p, StageEntry(campaign.stage, campaign.startedAt), StageEntry(stage, now))
    ensures TrailOk(p, campaign.(stage := stage, startedAt := now, revision := campaign.revision + 1), trail + [StageEntry(stage, now)])
  {
    var longer := trail + [StageEntry(stage, now)];
    forall i | 1 <= i < |longer| ensures Continues(p, longer, i) {
      if i < |trail| {
        assert Continues(p, trail, i);
      }
    }
  }

  /** Registry and campaign move together, and everybody else's facts stay. */
  lemma MovedKeepsGood(p: Policy, d: Desk, registry: Registry, c: int, stage: Stage, now: int)
    requires Good(p, d) && c in d.campaigns && Sound(registry) && RecordsKept(d.registry.records, registry.records)
    requires Follows(p, StageEntry(d.campaigns[c].stage, d.campaigns[c].startedAt), StageEntry(stage, now))
    requires c in d.trail && GatesBehind(p, d.observations, c, d.trail[c] + [StageEntry(stage, now)])
    requires stage in {ActiveStage, RolledBackStage} ==> Established(registry.records, d.campaigns[c].key)
    ensures Good(p, Moved(d.(registry := registry), c, stage, now))
  {
    var e := Moved(d.(registry := registry), c, stage, now);
    forall k | k in e.campaigns ensures CampaignOk(p, e, k) {
      assert CampaignOk(p, d, k);
      if k == c {
        TrailGrows(p, d.campaigns[c], d.trail[c], stage, now);
      } else {
        CampaignKept(p, d, e, k);
      }
    }
  }

  lemma RollbackKeepsRecords(r: Registry, t: Registry, from: Key, to: Key)
    requires RolledBack(r, t, from, to) && Established(r.records, from) && Established(r.records, to)
    ensures RecordsKept(r.records, t.records)
  {
  }

  lemma ActivateKeepsRecords(r: Registry, t: Registry, key: Key)
    requires Activated(r, t, key)
    ensures RecordsKept(r.records, t.records)
  {
  }

  // ---- What stopping and promoting ask of the registry.

  /** A step by which nobody comes to be in charge. */
  lemma TransitionGrows(r: Registry, key: Key, to: Status)
    requires Sound(r) && key in r.records && Allowed(r.records[key].status, to) && to != Active
    requires r.records[key].status !in {Active, Deprecated}
    ensures Transition(r, key, to, r.records[key].revision) == Ok(Changed(r, key, to))
    ensures RegistryGrows(r, Changed(r, key, to)) && NobodyPromoted(r, Changed(r, key, to))
  {
    TransitionKeepsSound(r, key, to, r.records[key].revision);
    ChangedKeepsRecords(r, key, to);
  }

  lemma RolledBackGrows(r: Registry, t: Registry, from: Key, to: Key)
    requires Sound(t) && RolledBack(r, t, from, to) && Established(r.records, to) && IsActive(r.records, from) && r.records[to].status == Deprecated
    ensures RegistryGrows(r, t) && NobodyPromoted(r, t)
  {
    RollbackKeepsRecords(r, t, from, to);
  }

  lemma RollbackGrows(r: Registry, target: Key, expectedActive: int, expectedTarget: int)
    requires Sound(r) && Established(r.records, target)
    requires Rollback(r, target.dna, target.version, expectedActive, expectedTarget).Ok?
    ensures var t := Rollback(r, target.dna, target.version, expectedActive, expectedTarget).value;
      RegistryGrows(r, t) && NobodyPromoted(r, t)
  {
    RollbackExact(r, target.dna, target.version, expectedActive, expectedTarget);
    RollbackKeepsSound(r, target.dna, target.version, expectedActive, expectedTarget);
    var t := Rollback(r, target.dna, target.version, expectedActive, expectedTarget).value;
    assert target == Key(target.dna, target.version);
    RolledBackGrows(r, t, Key(target.dna, ActiveVersion(r.records, target.dna).value), target);
  }

  lemma ActivateGrows(r: Registry, key: Key, expected: int)
    requires Sound(r) && key in r.records && Activate(r, key, expected).Ok?
    ensures var t := Activate(r, key, expected).value;
      RegistryGrows(r, t) && Established(t.records, key) && forall k :: Established(t.records, k) ==> Established(r.records, k) || k == key
  {
    ActivateExact(r, key, expected);
    ActivateKeepsSound(r, key, expected);
    ActivateEffect(r, key, expected);
    ActivateKeepsRecords(r, Activate(r, key, expected).value, key);
  }

  /** The registry grew and campaign `c` moved to `stage`; everything else is as before. */
  ghost predicate MovedTo(d: Desk, e: Desk, c: int, stage: Stage, now: int)
    requires c in d.campaigns && c in d.trail
  {
    RegistryGrows(d.registry, e.registry) && e == Moved(d.(registry := e.registry), c, stage, now)
  }

  lemma StopByRollback(p: Policy, d: Desk, c: int, now: int)
    requires Good(p, d) && c in d.campaigns && d.campaigns[c].stage.ActiveStage? && d.campaigns[c].baseline.Some?
    ensures var e := Stop(d, c, now).desk; e == d || (MovedTo(d, e, c, RolledBackStage, now) && NobodyPromoted(d.registry, e.registry))
  {
    var campaign, r := d.campaigns[c], d.registry;
    assert CampaignOk(p, d, c);
    var target := Key(campaign.key.dna, campaign.baseline.value);
    var expectedActive, expectedTarget := r.records[campaign.key].revision, r.records[target].revision;
    if Rollback(r, target.dna, target.version, expectedActive, expectedTarget).Ok? {
      RollbackGrows(r, target, expectedActive, expectedTarget);
    }
  }

  lemma StopByRetiring(p: Policy, d: Desk, c: int, now: int)
    requires Good(p, d) && c in d.campaigns && !(d.campaigns[c].stage.ActiveStage? && d.campaigns[c].baseline.Some?)
    ensures var e := Stop(d, c, now).desk; MovedTo(d, e, c, StoppedStage, now) && NobodyPromoted(d.registry, e.registry)
  {
    var key, r := d.campaigns[c].key, d.registry;
    assert CampaignOk(p, d, c);
    assert d.(registry := r) == d;
    if r.records[key].status in {Shadow, Canary} {
      TransitionGrows(r, key, Retired);
    }
  }

  lemma StopRegistry(p: Policy, d: Desk, c: int, now: int)
    requires Good(p, d) && c in d.campaigns && Live(d.campaigns[c].stage)
    ensures var e := Stop(d, c, now).desk;
      && NobodyPromoted(d.registry, e.registry)
      && (e == d || MovedTo(d, e, c, StoppedStage, now) || (d.campaigns[c].stage.ActiveStage? && MovedTo(d, e, c, RolledBackStage, now)))
  {
    if d.campaigns[c].stage.ActiveStage? && d.campaigns[c].baseline.Some? {
      StopByRollback(p, d, c, now);
    } else {
      StopByRetiring(p, d, c, now);
    }
  }

  lemma PromoteToCanary(p: Policy, d: Desk, c: int, now: int)
    requires Good(p, d) && c in d.campaigns && d.campaigns[c].stage.ShadowStage?
    ensures var e := Promote(d, c, now).desk; e == d || (MovedTo(d, e, c, CanaryStage, now) && NobodyPromoted(d.registry, e.registry))
  {
    var key, r := d.campaigns[c].key, d.registry;
    assert CampaignOk(p, d, c);
    if Transition(r, key, Canary, r.records[key].revision).Ok? {
      TransitionGrows(r, key, Canary);
    }
  }

  lemma PromoteToActive(p: Policy, d: Desk, c: int, now: int)
    requires Good(p, d) && c in d.campaigns && d.campaigns[c].stage.CanaryStage?
    ensures var e := Promote(d, c, now).desk; var key := d.campaigns[c].key;
      e == d || (MovedTo(d, e, c, ActiveStage, now) && Established(e.registry.records, key)
                 && forall k :: Established(e.registry.records, k) ==> Established(d.registry.records, k) || k == key)
  {
    var key, r := d.campaigns[c].key, d.registry;
    assert CampaignOk(p, d, c);
    if Activate(r, key, r.records[key].revision).Ok? {
      ActivateGrows(r, key, r.records[key].revision);
    }
  }

  lemma MovedOutKeepsGood(p: Policy, d: Desk, e: Desk, c: int, stage: Stage, now: int)
    requires Good(p, d) && c in d.campaigns && Live(d.campaigns[c].stage) && MovedTo(d, e, c, stage, now)
    requires stage.StoppedStage? || (stage.RolledBackStage? && d.campaigns[c].stage.ActiveStage?)
    ensures Good(p, e)
  {
    assert CampaignOk(p, d, c);
    LeavingKeepsGates(p, d.observations, c, d.trail[c], StageEntry(stage, now));
    if stage.RolledBackStage? {
      StayEstablished(p, d, e.registry, c);
    }
    MovedKeepsGood(p, d, e.registry, c, stage, now);
  }

  lemma StayEstablished(p: Policy, d: Desk, registry: Registry, c: int)
    requires Good(p, d) && c in d.campaigns && d.campaigns[c].stage.ActiveStage? && RegistryGrows(d.registry, registry)
    ensures Established(registry.records, d.campaigns[c].key)
  {
    assert CampaignOk(p, d, c);
  }

  /** Leaving the trial adds no gate to pass. */
  lemma LeavingKeepsGates(p: Policy, observations: map<int, Observation>, c: int, trail: seq<StageEntry>, entry: StageEntry)
    requires GatesBehind(p, observations, c, trail) && !entry.stage.CanaryStage? && !entry.stage.ActiveStage?
    ensures GatesBehind(p, observations, c, trail + [entry])
  {
    var longer := trail + [entry];
    assert Tried(longer) ==> Tried(trail);
    assert Graduated(longer) ==> Graduated(trail);
  }

  lemma StopKeepsGood(p: Policy, d: Desk, c: int, now: int)
    requires Good(p, d) && c in d.campaigns && Live(d.campaigns[c].stage)
    ensures Good(p, Stop(d, c, now).desk)
  {
    StopRegistry(p, d, c, now);
    var e := Stop(d, c, now).desk;
    if e != d {
      MovedOutKeepsGood(p, d, e, c, if MovedTo(d, e, c, StoppedStage, now) then StoppedStage else RolledBackStage, now);
    }
  }

  lemma ShadowPromotionKeepsGood(p: Policy, d: Desk, c: int, now: int)
    requires Good(p, d) && c in d.campaigns && d.campaigns[c].stage.ShadowStage?
    requires GateMet(p, d.observations, c, ShadowStage) && now >= d.campaigns[c].startedAt + p.shadowDuration
    ensures Good(p, Promote(d, c, now).desk)
  {
    PromoteToCanary(p, d, c, now);
    var e := Promote(d, c, now).desk;
    assert CampaignOk(p, d, c);
    TrailShape(p, d.campaigns[c], d.trail[c]);
    if e != d {
      MovedKeepsGood(p, d, e.registry, c, CanaryStage, now);
    }
  }

  lemma CanaryPromotionKeepsGood(p: Policy, d: Desk, c: int, now: int)
    requires Good(p, d) && c in d.campaigns && d.campaigns[c].stage.CanaryStage?
    requires GateMet(p, d.observations, c, CanaryStage) && now >= d.campaigns[c].startedAt + p.canaryDuration
    ensures Good(p, Promote(d, c, now).desk)
  {
    PromoteToActive(p, d, c, now);
    var e := Promote(d, c, now).desk;
    assert CampaignOk(p, d, c);
    TrailShape(p, d.campaigns[c], d.trail[c]);
    if e != d {
      MovedKeepsGood(p, d, e.registry, c, ActiveStage, now);
    }
  }

  /** Only live stages have rows, so a finished campaign never has enough of them. */
  lemma FinishedHasNoRows(p: Policy, d: Desk, c: int)
    requires Good(p, d) && c in d.campaigns && !Live(d.campaigns[c].stage)
    ensures !Enough(p, d.observations, c, d.campaigns[c].stage)
  {
    var rows := Rows(d.observations, c, d.campaigns[c].stage);
    forall o ensures o !in rows {
      assert o in d.observations ==> Live(d.observations[o].stage);
    }
    assert rows == {};
  }

  lemma EvaluateKeepsGood(p: Policy, d: Desk, c: int, now: int)
    requires Good(p, d) && c in d.campaigns
    ensures Good(p, Evaluate(p, d, c, now).desk)
  {
    var stage := d.campaigns[c].stage;
    if !Live(stage) {
      FinishedHasNoRows(p, d, c);
    } else if !stage.ActiveStage? && Enough(p, d.observations, c, stage) && now >= d.campaigns[c].startedAt + p.Duration(stage) {
      if GateMet(p, d.observations, c, stage) {
        if stage.ShadowStage? {
          ShadowPromotionKeepsGood(p, d, c, now);
        } else {
          CanaryPromotionKeepsGood(p, d, c, now);
        }
      } else {
        StopKeepsGood(p, d, c, now);
      }
    }
  }

  /** Observations land in the current stage only, so gates already passed stay passed. */
  lemma RecordingKeepsGates(p: Policy, d: Desk, id: int, o: Observation, c: int)
    requires Good(p, d) && c in d.campaigns && id !in d.observations
    requires o.campaign in d.campaigns && o.stage == d.campaigns[o.campaign].stage && Live(o.stage)
    ensures GatesBehind(p, d.observations[id := o], c, d.trail[c])
  {
    assert CampaignOk(p, d, c);
    TrailShape(p, d.campaigns[c], d.trail[c]);
    if Tried(d.trail[c]) {
      RowsElsewhere(p, d.observations, id, o, c, ShadowStage);
    }
    if Graduated(d.trail[c]) {
      RowsElsewhere(p, d.observations, id, o, c, CanaryStage);
    }
  }

  lemma RowsElsewhere(p: Policy, observations: map<int, Observation>, id: int, o: Observation, c: int, stage: Stage)
    requires id !in observations && !(o.campaign == c && o.stage == stage) && GateMet(p, observations, c, stage)
    ensures GateMet(p, observations[id := o], c, stage)
  {
    var after := observations[id := o];
    var rows := Rows(observations, c, stage);
    assert Rows(after, c, stage) == rows;
    SameCount(observations, after, rows, (o: Observation) => o.successful);
    SameCount(observations, after, rows, (o: Observation) => o.stable);
    SameCount(observations, after, rows, (o: Observation) => o.risky);
  }

  lemma SameCount(before: map<int, Observation>, after: map<int, Observation>, rows: set<int>, wanted: Observation -> bool)
    requires forall r :: r in rows ==> r in before && r in after && before[r] == after[r]
    ensures Count(before, rows, wanted) == Count(after, rows, wanted)
  {
    var a, b := set o | o in rows && o in before && wanted(before[o]), set o | o in rows && o in after && wanted(after[o]);
    forall o ensures o in a <==> o in b {
      if o in rows {
        assert before[o] == after[o];
      }
    }
    assert a == b;
  }

  lemma RecordingKeepsGood(p: Policy, d: Desk, id: int, o: Observation)
    requires Good(p, d) && id !in d.observations
    requires o.campaign in d.campaigns && o.stage == d.campaigns[o.campaign].stage && Live(o.stage)
    ensures Good(p, d.(observations := d.observations[id := o]))
  {
    var e := d.(observations := d.observations[id := o]);
    forall c | c in e.campaigns ensures CampaignOk(p, e, c) {
      assert CampaignOk(p, d, c);
      RecordingKeepsGates(p, d, id, o, c);
    }
  }

  lemma ObserveKeepsGood(p: Policy, d: Desk, id: int, seen: Observation, now: int)
    requires Good(p, d)
    ensures Good(p, Observe(p, d, id, seen, now).desk)
  {
    var c := seen.campaign;
    if c in d.campaigns && Live(d.campaigns[c].stage) && id !in d.observations {
      var o := seen.(stage := d.campaigns[c].stage);
      if o.at >= d.campaigns[c].startedAt {
        RecordingKeepsGood(p, d, id, o);
        var recorded := d.(observations := d.observations[id := o]);
        if HardStop(o) {
          StopKeepsGood(p, recorded, c, now);
        } else {
          EvaluateKeepsGood(p, recorded, c, now);
        }
      }
    }
  }

  // ---- The promises.

  /** Whoever is or was ACTIVE went through both gates, each passed on its own observations and after its time. */
  lemma ActiveMeansBothGates(p: Policy, d: Desk, c: int)
    requires Good(p, d) && c in d.campaigns && (d.campaigns[c].stage.ActiveStage? || Graduated(d.trail[c]))
    ensures GateMet(p, d.observations, c, ShadowStage) && GateMet(p, d.observations, c, CanaryStage)
    ensures var t := d.trail[c];
      && |t| >= 3 && t[0].stage.ShadowStage? && t[1].stage.CanaryStage? && t[2].stage.ActiveStage?
      && t[1].at >= t[0].at + p.shadowDuration && t[2].at >= t[1].at + p.canaryDuration
  {
    assert CampaignOk(p, d, c);
    TrailShape(p, d.campaigns[c], d.trail[c]);
    var t := d.trail[c];
    assert Continues(p, t, 1) && Continues(p, t, 2);
  }

  /** An active campaign with a baseline can be stopped exactly while its own version is the ACTIVE one. */
  lemma StopExact(p: Policy, d: Desk, c: int, now: int)
    requires Good(p, d) && c in d.campaigns && d.campaigns[c].stage.ActiveStage? && d.campaigns[c].baseline.Some?
    ensures Stop(d, c, now).error.None? <==> IsActive(d.registry.records, d.campaigns[c].key)
    ensures Stop(d, c, now).error.Some? ==> Stop(d, c, now).desk == d
  {
    assert CampaignOk(p, d, c);
    var key, r := d.campaigns[c].key, d.registry;
    var target := Key(key.dna, d.campaigns[c].baseline.value);
    RollbackExact(r, key.dna, target.version, r.records[key].revision, r.records[target].revision);
    var active := ActiveVersion(r.records, key.dna);
    assert key == Key(key.dna, key.version);
    if active.Some? {
      if r.records[Key(key.dna, active.value)].revision == r.records[key].revision {
        RevisionsTellActive(r, key.dna, key.version);
      }
      if IsActive(r.records, key) {
        OnlyOneOther(r.records, Key(key.dna, active.value));
        assert !IsActive(r.records, target);
      }
    }
  }

  /** A successful rollback leaves exactly the recorded baseline ACTIVE, and demotes the campaign's own version. */
  lemma RollbackRestoresBaseline(p: Policy, d: Desk, c: int, now: int)
    requires Good(p, d) && c in d.campaigns && d.campaigns[c].stage.ActiveStage? && d.campaigns[c].baseline.Some?
    requires Stop(d, c, now).error.None?
    ensures var e := Stop(d, c, now).desk; var key := d.campaigns[c].key;
      RolledBack(d.registry, e.registry, key, Key(key.dna, d.campaigns[c].baseline.value))
    ensures var e := Stop(d, c, now).desk; var key := d.campaigns[c].key;
      forall v :: IsActive(e.registry.records, Key(key.dna, v)) <==> v == d.campaigns[c].baseline.value
    ensures Stop(d, c, now).desk.campaigns[c].stage.RolledBackStage?
  {
    assert CampaignOk(p, d, c);
    var key, r := d.campaigns[c].key, d.registry;
    var target := Key(key.dna, d.campaigns[c].baseline.value);
    StopExact(p, d, c, now);
    RollbackExact(r, key.dna, target.version, r.records[key].revision, r.records[target].revision);
    OnlyOneOther(r.records, key);
    assert ActiveVersion(r.records, key.dna) == Some(key.version);
    StopKeepsGood(p, d, c, now);
    var e := Stop(d, c, now).desk;
    assert IsActive(e.registry.records, target);
    OnlyOneOther(e.registry.records, target);
  }

  /** A campaign that replaced nothing has nothing to go back to: stopping it leaves its version ACTIVE. */
  lemma StopWithoutBaseline(p: Policy, d: Desk, c: int, now: int)
    requires Good(p, d) && c in d.campaigns && d.campaigns[c].stage.ActiveStage? && d.campaigns[c].baseline.None?
    ensures Stop(d, c, now).error.None? && Stop(d, c, now).desk.registry == d.registry
    ensures Stop(d, c, now).desk.campaigns[c].stage.StoppedStage?
  {
    assert CampaignOk(p, d, c);
  }

  /** A campaign on trial can always be stopped, and its version is retired unless another campaign moved it on. */
  lemma StopOnTrial(p: Policy, d: Desk, c: int, now: int)
    requires Good(p, d) && c in d.campaigns && d.campaigns[c].stage in {ShadowStage, CanaryStage}
    ensures var o := Stop(d, c, now); o.error.None? && o.desk.campaigns[c].stage.StoppedStage?
    ensures var key := d.campaigns[c].key; d.registry.records[key].status in {Shadow, Canary} ==>
      Stop(d, c, now).desk.registry.records[key].status == Retired
  {
    assert CampaignOk(p, d, c);
  }

  lemma StopFrame(d: Desk, c: int, now: int)
    requires c in d.campaigns && d.campaigns.Keys == d.trail.Keys && OneActive(d.registry.records)
    ensures var e := Stop(d, c, now).desk; e.observations == d.observations && e.campaigns.Keys == d.campaigns.Keys
  {
  }

  lemma EvaluateFrame(p: Policy, d: Desk, c: int, now: int)
    requires p.Valid() && c in d.campaigns && d.campaigns.Keys == d.trail.Keys && OneActive(d.registry.records)
    ensures var e := Evaluate(p, d, c, now).desk; e.observations == d.observations && e.campaigns.Keys == d.campaigns.Keys
  {
  }

  /** Sending the same observation again while the stage lasts changes nothing. */
  lemma ObservationReplayed(p: Policy, d: Desk, id: int, seen: Observation, now: int, later: int, e: Desk)
    requires Good(p, d) && Good(p, e) && Observe(p, d, id, seen, now) == Outcome(e, None)
    requires seen.campaign in d.campaigns && seen.campaign in e.campaigns
    requires e.campaigns[seen.campaign].stage == d.campaigns[seen.campaign].stage
    ensures Observe(p, e, id, seen, later) == Outcome(e, None)
  {
    var c := seen.campaign;
    if id !in d.observations {
      var recorded := d.(observations := d.observations[id := seen.(stage := d.campaigns[c].stage)]);
      StopFrame(recorded, c, now);
      EvaluateFrame(p, recorded, c, now);
    }
  }

  // ---- What the gates demand, counted on the observations.

  function AllIn(observations: map<int, Observation>, c: int, stage: Stage): set<int> {
    set o | o in observations && observations[o].campaign == c && observations[o].stage == stage
  }

  function SuccessfulIn(observations: map<int, Observation>, c: int, stage: Stage): set<int> {
    set o | o in observations && observations[o].campaign == c && observations[o].stage == stage && observations[o].successful
  }

  function StableIn(observations: map<int, Observation>, c: int, stage: Stage): set<int> {
    set o | o in observations && observations[o].campaign == c && observations[o].stage == stage && observations[o].stable
  }

  function RiskyIn(observations: map<int, Observation>, c: int, stage: Stage): set<int> {
    set o | o in observations && observations[o].campaign == c && observations[o].stage == stage && observations[o].risky
  }

  /** Enough successful and stable observations, and few enough risky ones, in proportion to all of the stage. */
  ghost predicate Clears(p: Policy, observations: map<int, Observation>, c: int, stage: Stage) {
    var n := |AllIn(observations, c, stage)| as real;
    && |SuccessfulIn(observations, c, stage)| as real >= p.minSuccess * n
    && |StableIn(observations, c, stage)| as real >= p.minStability * n
    && |RiskyIn(observations, c, stage)| as real <= p.maxRisk * n
  }

  lemma RateBounds(k: nat, n: nat, bound: real)
    requires n > 0
    ensures Rate(k, n) >= bound <==> k as real >= bound * n as real
    ensures Rate(k, n) <= bound <==> k as real <= bound * n as real
  {
    var q := Rate(k, n);
    assert q * n as real == k as real;
    assert (q - bound) * n as real == k as real - bound * n as real;
  }

  lemma CountIs(observations: map<int, Observation>, c: int, stage: Stage, wanted: Observation -> bool, picked: set<int>)
    requires forall o :: o in picked <==> o in observations && observations[o].campaign == c && observations[o].stage == stage && wanted(observations[o])
    ensures Count(observations, Rows(observations, c, stage), wanted) == |picked|
  {
    var rows := Rows(observations, c, stage);
    var counted := set o | o in rows && o in observations && wanted(observations[o]);
    forall o ensures o in counted <==> o in picked {
      if o in observations {
        assert o in rows <==> observations[o].campaign == c && observations[o].stage == stage;
      }
    }
    assert counted == picked;
  }

  lemma ThresholdsMean(p: Policy, observations: map<int, Observation>, c: int, stage: Stage)
    requires Rows(observations, c, stage) != {}
    ensures ThresholdsMet(p, observations, c, stage) <==> Clears(p, observations, c, stage)
  {
    var n := |Rows(observations, c, stage)|;
    assert AllIn(observations, c, stage) == Rows(observations, c, stage);
    CountIs(observations, c, stage, (o: Observation) => o.successful, SuccessfulIn(observations, c, stage));
    CountIs(observations, c, stage, (o: Observation) => o.stable, StableIn(observations, c, stage));
    CountIs(observations, c, stage, (o: Observation) => o.risky, RiskyIn(observations, c, stage));
    RateBounds(|SuccessfulIn(observations, c, stage)|, n, p.minSuccess);
    RateBounds(|StableIn(observations, c, stage)|, n, p.minStability);
    RateBounds(|RiskyIn(observations, c, stage)|, n, p.maxRisk);
  }

  /** A gate is passed exactly with as many observations as it asks for, at least one, that clear the thresholds. */
  lemma GateMeans(p: Policy, observations: map<int, Observation>, c: int, stage: Stage)
    ensures GateMet(p, observations, c, stage) <==>
      && |AllIn(observations, c, stage)| >= (if stage.ShadowStage? then p.shadowSamples else p.canarySamples)
      && AllIn(observations, c, stage) != {}
      && Clears(p, observations, c, stage)
  {
    assert AllIn(observations, c, stage) == Rows(observations, c, stage);
    if Rows(observations, c, stage) != {} {
      ThresholdsMean(p, observations, c, stage);
    }
  }

  /** Whoever was ever ACTIVE has, in either trial stage, as many observations as asked for, clearing the thresholds. */
  lemma ActiveClearedBothGates(p: Policy, d: Desk, c: int)
    requires Good(p, d) && c in d.campaigns && (d.campaigns[c].stage.ActiveStage? || Graduated(d.trail[c]))
    ensures |AllIn(d.observations, c, ShadowStage)| >= p.shadowSamples && Clears(p, d.observations, c, ShadowStage)
    ensures |AllIn(d.observations, c, CanaryStage)| >= p.canarySamples && Clears(p, d.observations, c, CanaryStage)
  {
    ActiveMeansBothGates(p, d, c);
    GateMeans(p, d.observations, c, ShadowStage);
    GateMeans(p, d.observations, c, CanaryStage);
  }

  lemma {:induction false} EqualWhenAsLarge(a: set<int>, b: set<int>)
    requires a <= b && |a| >= |b|
    ensures a == b
  {
    assert b == a + (b - a);
  }

  /** Under the strictest policy every observation of a stage passed is successful and stable, and none is risky. */
  lemma StrictGate(p: Policy, observations: map<int, Observation>, c: int, stage: Stage, o: int)
    requires p.minSuccess == 1.0 && p.minStability == 1.0 && p.maxRisk == 0.0 && Clears(p, observations, c, stage)
    requires o in observations && observations[o].campaign == c && observations[o].stage == stage
    ensures observations[o].successful && observations[o].stable && !observations[o].risky
  {
    var all := AllIn(observations, c, stage);
    assert o in all;
    EqualWhenAsLarge(SuccessfulIn(observations, c, stage), all);
    EqualWhenAsLarge(StableIn(observations, c, stage), all);
    assert p.maxRisk * |all| as real == 0.0;
    assert |RiskyIn(observations, c, stage)| == 0;
    assert o in SuccessfulIn(observations, c, stage) && o in StableIn(observations, c, stage) && o !in RiskyIn(observations, c, stage);
  }

  function NextStage(s: Stage): Stage {
    if s.ShadowStage? then CanaryStage else ActiveStage
  }

  function TrialStatus(s: Stage): Status {
    if s.ShadowStage? then Shadow else if s.CanaryStage? then Canary else Active
  }

  /** Promotion succeeds exactly while the version has the status of its stage, and moves both one stage on. */
  lemma PromoteExact(p: Policy, d: Desk, c: int, now: int)
    requires Good(p, d) && c in d.campaigns && d.campaigns[c].stage in {ShadowStage, CanaryStage}
    ensures var o, stage, key := Promote(d, c, now), d.campaigns[c].stage, d.campaigns[c].key;
      && (o.error.None? <==> d.registry.records[key].status == TrialStatus(stage))
      && (o.error.None? ==> o.desk.campaigns[c].stage == NextStage(stage) && o.desk.registry.records[key].status == TrialStatus(NextStage(stage)))
      && (o.error.Some? ==> o.desk == d)
  {
    assert CampaignOk(p, d, c);
    var key, r := d.campaigns[c].key, d.registry;
    if d.campaigns[c].stage.CanaryStage? {
      ActivateExact(r, key, r.records[key].revision);
      if Activate(r, key, r.records[key].revision).Ok? {
        ActivateEffect(r, key, r.records[key].revision);
      }
    }
  }

  /** There are as many observations as asked for, and the stage has lasted long enough. */
  predicate Due(p: Policy, observations: map<int, Observation>, c: int, campaign: Campaign, now: int) {
    if campaign.stage.ShadowStage? then
      |AllIn(observations, c, ShadowStage)| >= p.shadowSamples && now >= campaign.startedAt + p.shadowDuration
    else
      |AllIn(observations, c, campaign.stage)| >= p.canarySamples && now >= campaign.startedAt + p.canaryDuration
  }

  /** What an evaluation does to a campaign on trial: nothing before it is due; then the campaign moves on if its
      observations clear the thresholds, while its version keeps pace, and is stopped if not. */
  ghost predicate EvaluatedAs(p: Policy, d: Desk, c: int, now: int, o: Outcome)
    requires c in d.campaigns && d.campaigns[c].key in d.registry.records
  {
    var campaign := d.campaigns[c];
    var key, stage := campaign.key, campaign.stage;
    if !Due(p, d.observations, c, campaign, now) then o == Outcome(d, None)
    else if !Clears(p, d.observations, c, stage) then
      o.error.None? && c in o.desk.campaigns && o.desk.campaigns[c].stage.StoppedStage?
    else if d.registry.records[key].status == TrialStatus(stage) then
      && o.error.None? && c in o.desk.campaigns && o.desk.campaigns[c].stage == NextStage(stage)
      && key in o.desk.registry.records && o.desk.registry.records[key].status == TrialStatus(NextStage(stage))
    else o.error.Some? && o.desk == d
  }

  lemma EvaluateExact(p: Policy, d: Desk, c: int, now: int)
    requires Good(p, d) && c in d.campaigns && d.campaigns[c].stage in {ShadowStage, CanaryStage}
    ensures d.campaigns[c].key in d.registry.records && EvaluatedAs(p, d, c, now, Evaluate(p, d, c, now))
  {
    var stage := d.campaigns[c].stage;
    assert CampaignOk(p, d, c);
    GateMeans(p, d.observations, c, stage);
    assert AllIn(d.observations, c, stage) == Rows(d.observations, c, stage);
    PromoteExact(p, d, c, now);
    StopOnTrial(p, d, c, now);
  }

  /** A new observation of a live campaign: harm on trial stops it at once, harm in ACTIVE leaves ACTIVE unless the rollback
      fails, and anything else is recorded and evaluated. */
  lemma ObserveExact(p: Policy, d: Desk, id: int, seen: Observation, now: int)
    requires Good(p, d) && seen.campaign in d.campaigns && Live(d.campaigns[seen.campaign].stage)
    requires id !in d.observations && seen.at >= d.campaigns[seen.campaign].startedAt
    ensures var o, c := Observe(p, d, id, seen, now), seen.campaign;
      var stage := d.campaigns[c].stage;
      && o.desk.observations == d.observations[id := seen.(stage := stage)]
      && (seen.risky || seen.duplicateEffect || seen.expanded || seen.recoveryFailed ==>
            && (!stage.ActiveStage? ==> o.error.None? && o.desk.campaigns[c].stage.StoppedStage?)
            && (stage.ActiveStage? && o.error.None? ==> o.desk.campaigns[c].stage in {StoppedStage, RolledBackStage}))
      && (!(seen.risky || seen.duplicateEffect || seen.expanded || seen.recoveryFailed) ==>
            o == Evaluate(p, d.(observations := d.observations[id := seen.(stage := stage)]), c, now))
  {
    var c := seen.campaign;
    var o := seen.(stage := d.campaigns[c].stage);
    RecordingKeepsGood(p, d, id, o);
    var recorded := d.(observations := d.observations[id := o]);
    StopFrame(recorded, c, now);
    EvaluateFrame(p, recorded, c, now);
    assert CampaignOk(p, recorded, c);
    if !o.stage.ActiveStage? {
      StopOnTrial(p, recorded, c, now);
    }
  }

  /** The kill switch ends a trial and leaves finished campaigns alone; the manual rollback is for ACTIVE ones only. */
  lemma StopCallsExact(p: Policy, d: Desk, c: int, expected: Option<int>, revision: int, now: int)
    requires Good(p, d) && c in d.campaigns
    ensures var o, stage := Kill(d, c, expected, now), d.campaigns[c].stage;
      if expected.Some? && expected.value != d.campaigns[c].revision then o == Outcome(d, Some(StaleRevision))
      else && (stage in {StoppedStage, RolledBackStage} ==> o == Outcome(d, None))
           && (stage in {ShadowStage, CanaryStage} ==> o.error.None? && o.desk.campaigns[c].stage.StoppedStage?)
           && (stage.ActiveStage? && o.error.None? ==> o.desk.campaigns[c].stage in {StoppedStage, RolledBackStage})
    ensures var o, stage := RollBack(d, c, revision, now), d.campaigns[c].stage;
      if revision != d.campaigns[c].revision then o == Outcome(d, Some(StaleRevision))
      else && (!stage.ActiveStage? ==> o == Outcome(d, Some(NotActive)))
           && (stage.ActiveStage? && o.error.None? ==> o.desk.campaigns[c].stage in {StoppedStage, RolledBackStage})
  {
    assert CampaignOk(p, d, c);
    if d.campaigns[c].stage in {ShadowStage, CanaryStage} {
      StopOnTrial(p, d, c, now);
    }
  }

  // ---- Starting a campaign.

  /** The desk with a fresh Shadow campaign. */
  function Opened(d: Desk, c: int, campaign: Campaign): Desk {
    d.(campaigns := d.campaigns[c := campaign], trail := d.trail[c := [StageEntry(campaign.stage, campaign.startedAt)]])
  }

  function NewCampaign(key: Key, baseline: Option<int>, selection: int, proposal: int, request: int, now: int): Campaign {
    Campaign(key, baseline, ShadowStage, now, 0, selection, proposal, request)
  }

  /** Registry work that leaves established versions alone changes nothing a campaign relies on. */
  lemma RegistryWorkKeepsGood(p: Policy, d: Desk, registry: Registry)
    requires Good(p, d) && Sound(registry) && RecordsKept(d.registry.records, registry.records)
    ensures Good(p, d.(registry := registry))
  {
    var e := d.(registry := registry);
    forall c | c in e.campaigns ensures CampaignOk(p, e, c) {
      assert CampaignOk(p, d, c);
      CampaignKept(p, d, e, c);
    }
  }

  lemma OpenedKeepsGood(p: Policy, d: Desk, c: int, campaign: Campaign)
    requires Good(p, d) && c !in d.campaigns
    requires campaign.stage.ShadowStage? && campaign.revision == 0 && VersionsOk(d.registry.records, campaign)
    ensures Good(p, Opened(d, c, campaign))
  {
    var e := Opened(d, c, campaign);
    forall k | k in e.campaigns ensures CampaignOk(p, e, k) {
      if k != c {
        assert CampaignOk(p, d, k);
        CampaignKept(p, d, e, k);
      }
    }
  }

  predicate SlotTakenBy(campaigns: map<int, Campaign>, selection: int, proposal: int) {
    exists c :: c in campaigns && campaigns[c].selection == selection && campaigns[c].proposal == proposal
  }

  datatype Request = Request(campaign: int, identity: int, selection: int, proposal: int, selected: bool,
                             key: Key, status: Status, digest: int, parents: seq<Key>, digests: seq<int>)
  {
    predicate Valid() { |digests| == |parents| }
  }

  /** The registry after admitting a candidate, and the error raised, if any. */
  datatype Admission = Admission(registry: Registry, error: Option<PromotionError>)

  /** One step towards SHADOW, taken by a version that stands right before it. */
  function Stepped(r: Registry, key: Key, from: Status, to: Status): Registry
    requires key in r.records
  {
    if r.records[key].status == from then Changed(r, key, to) else r
  }

  /** Bringing the candidate of a request to SHADOW, registering it first if need be. */
  ghost function Admit(r: Registry, q: Request): Admission
    requires q.Valid()
  {
    var first := Known(r, q);
    if first.Err? then Admission(r, Some(Refused(first.error)))
    else
      var t := Stepped(Stepped(first.value, q.key, Candidate, Validated), q.key, Validated, Shadow);
      Admission(t, if t.records[q.key].status == Shadow then None else Some(NotEligible))
  }

  ghost function Start(d: Desk, q: Request, now: int): Outcome
    requires q.Valid() && OneActive(d.registry.records)
  {
    if q.campaign in d.campaigns then
      Outcome(d, if d.campaigns[q.campaign].request == q.identity then None else Some(OtherRequest))
    else if !q.selected then Outcome(d, Some(NotSelected))
    else
      var baseline := ActiveVersion(d.registry.records, q.key.dna);
      var a := Admit(d.registry, q);
      var e := d.(registry := a.registry);
      if a.error.Some? then Outcome(e, a.error)
      else if SlotTakenBy(d.campaigns, q.selection, q.proposal) then Outcome(e, Some(SlotTaken))
      else Outcome(Opened(e, q.campaign, NewCampaign(q.key, baseline, q.selection, q.proposal, q.identity, now)), None)
  }

  /** What calls on the registry never do: drop or revive rows, take back log entries, or move a version that made it
      to ACTIVE anywhere but between ACTIVE and DEPRECATED. */
  ghost predicate RegistryGrows(r: Registry, t: Registry) {
    Sound(t) && RetiredKept(r, t) && r.log <= t.log && RecordsKept(r.records, t.records)
  }

  lemma RegistryGrowsTransitive(a: Registry, b: Registry, c: Registry)
    requires RegistryGrows(a, b) && RegistryGrows(b, c)
    ensures RegistryGrows(a, c)
  {
    forall k | Established(a.records, k) ensures Established(c.records, k) {
      assert Established(b.records, k);
    }
    forall k | k in a.records
      ensures k in c.records && (a.records[k].status == Retired ==> c.records[k] == a.records[k])
    {
      assert k in b.records;
    }
  }

  /** Nobody was put in charge. */
  ghost predicate NobodyPromoted(r: Registry, t: Registry) {
    forall k :: Established(t.records, k) ==> Established(r.records, k)
  }

  lemma SteppedGrows(r: Registry, key: Key, from: Status, to: Status)
    requires Sound(r) && key in r.records && Allowed(from, to) && from !in {Canary, Active, Deprecated} && to != Active
    ensures RegistryGrows(r, Stepped(r, key, from, to)) && NobodyPromoted(r, Stepped(r, key, from, to))
  {
    if r.records[key].status == from {
      TransitionGrows(r, key, to);
    }
  }

  lemma SteppedTwiceGrows(r: Registry, key: Key)
    requires Sound(r) && key in r.records
    ensures var t := Stepped(Stepped(r, key, Candidate, Validated), key, Validated, Shadow);
      RegistryGrows(r, t) && NobodyPromoted(r, t) && key in t.records
  {
    var validated := Stepped(r, key, Candidate, Validated);
    var t := Stepped(validated, key, Validated, Shadow);
    SteppedGrows(r, key, Candidate, Validated);
    SteppedGrows(validated, key, Validated, Shadow);
    RegistryGrowsTransitive(r, validated, t);
    forall k | Established(t.records, k) ensures Established(r.records, k) {
      assert Established(validated.records, k);
    }
  }

  lemma RegisterGrows(r: Registry, q: Request)
    requires Sound(r) && q.Valid() && Register(r, q.key, q.status, q.digest, q.parents, q.digests).Ok?
    ensures RegistryGrows(r, Registered(r, q.key, q.digest, q.parents))
  {
    RegisterExact(r, q.key, q.status, q.digest, q.parents, q.digests);
    RegisteredKeepsSound(r, q.key, q.digest, q.parents);
  }

  /** The registry a candidate is found in: as it is, or with the candidate registered. */
  ghost function Known(r: Registry, q: Request): Result<Registry, DnaError>
    requires q.Valid()
  {
    if q.key in r.records then Ok(r) else Register(r, q.key, q.status, q.digest, q.parents, q.digests)
  }

  lemma KnownGrows(r: Registry, q: Request)
    requires Sound(r) && q.Valid() && Known(r, q).Ok?
    ensures RegistryGrows(r, Known(r, q).value) && NobodyPromoted(r, Known(r, q).value) && q.key in Known(r, q).value.records
  {
    if q.key !in r.records {
      RegisterGrows(r, q);
    }
  }

  lemma GrowsOn(a: Registry, b: Registry, c: Registry)
    requires RegistryGrows(a, b) && NobodyPromoted(a, b) && RegistryGrows(b, c) && NobodyPromoted(b, c)
    ensures RegistryGrows(a, c) && NobodyPromoted(a, c)
  {
    RegistryGrowsTransitive(a, b, c);
    forall k | Established(c.records, k) ensures Established(a.records, k) {
      assert Established(b.records, k);
    }
  }

  /** Admission only lets the registry grow, and makes nobody ACTIVE. */
  lemma AdmitGrows(r: Registry, q: Request)
    requires Sound(r) && q.Valid()
    ensures RegistryGrows(r, Admit(r, q).registry) && NobodyPromoted(r, Admit(r, q).registry)
    ensures Admit(r, q).error.None? ==> q.key in Admit(r, q).registry.records
  {
    var known := Known(r, q);
    if known.Ok? {
      KnownGrows(r, q);
      SteppedTwiceGrows(known.value, q.key);
      GrowsOn(r, known.value, Admit(r, q).registry);
    }
  }

  /** Who can be brought to SHADOW: a version not beyond it yet, or a new one the registry takes. */
  ghost predicate Admissible(r: Registry, q: Request)
    requires q.Valid()
  {
    if q.key in r.records then r.records[q.key].status in {Candidate, Validated, Shadow}
    else
      && q.status == Candidate && MayRegister(r, q.key, q.digest, q.parents)
      && forall i :: 0 <= i < |q.parents| ==> q.parents[i] in r.records && r.records[q.parents[i]].digest == q.digests[i]
  }

  lemma AdmitExact(r: Registry, q: Request)
    requires q.Valid()
    ensures Admit(r, q).error.None? <==> Admissible(r, q)
    ensures Admit(r, q).error.None? ==> q.key in Admit(r, q).registry.records && Admit(r, q).registry.records[q.key].status == Shadow
  {
    RegisterExact(r, q.key, q.status, q.digest, q.parents, q.digests);
  }

  /** `start` succeeds exactly on a repeated request, or for a selected, admissible candidate whose slot is free. */
  lemma StartExact(d: Desk, q: Request, now: int)
    requires q.Valid() && OneActive(d.registry.records)
    ensures Start(d, q, now).error.None? <==>
      if q.campaign in d.campaigns then d.campaigns[q.campaign].request == q.identity
      else
        && q.selected && Admissible(d.registry, q)
        && forall c :: c in d.campaigns ==> d.campaigns[c].selection != q.selection || d.campaigns[c].proposal != q.proposal
  {
    AdmitExact(d.registry, q);
  }

  /** What `start` leaves in the campaign tables. */
  lemma StartEffect(d: Desk, q: Request, now: int)
    requires q.Valid() && OneActive(d.registry.records)
    ensures var o := Start(d, q, now);
      && (o.error.Some? ==> o.desk.campaigns == d.campaigns && o.desk.trail == d.trail)
      && (q.campaign !in d.campaigns && o.error.None? ==>
            && q.key in o.desk.registry.records && o.desk.registry.records[q.key].status == Shadow
            && o.desk.campaigns == d.campaigns[q.campaign :=
                 NewCampaign(q.key, ActiveVersion(d.registry.records, q.key.dna), q.selection, q.proposal, q.identity, now)])
  {
    AdmitExact(d.registry, q);
  }

  lemma StartKeepsGood(p: Policy, d: Desk, q: Request, now: int)
    requires Good(p, d) && q.Valid()
    ensures Good(p, Start(d, q, now).desk)
  {
    if q.campaign !in d.campaigns && q.selected {
      var baseline := ActiveVersion(d.registry.records, q.key.dna);
      AdmitGrows(d.registry, q);
      AdmitExact(d.registry, q);
      var e := d.(registry := Admit(d.registry, q).registry);
      RegistryWorkKeepsGood(p, d, e.registry);
      if Start(d, q, now).error.None? {
        var campaign := NewCampaign(q.key, baseline, q.selection, q.proposal, q.identity, now);
        BaselineOk(d.registry, e.registry, campaign);
        OpenedKeepsGood(p, e, q.campaign, campaign);
      }
    }
  }

  /** The recorded baseline is another version, since the candidate's own is in SHADOW. */
  lemma BaselineOk(before: Registry, after: Registry, campaign: Campaign)
    requires OneActive(before.records) && RecordsKept(before.records, after.records) && campaign.stage.ShadowStage?
    requires campaign.key in after.records && after.records[campaign.key].status == Shadow
    requires campaign.baseline == ActiveVersion(before.records, campaign.key.dna)
    ensures VersionsOk(after.records, campaign)
  {
    if campaign.baseline.Some? {
      assert Established(before.records, Key(campaign.key.dna, campaign.baseline.value));
      assert campaign.key == Key(campaign.key.dna, campaign.key.version);
    }
  }
}

/** Runs of the controller: its calls in any order, by anyone. */
module PromotionRuns {
  import opened Wrappers
  import opened DnaLineage
  import opened DnaRecords
  import opened PromotionProtocol

  datatype Call =
    | StartCall(request: Request)
    | ObserveCall(id: int, seen: Observation)
    | KillCall(campaign: int, reason: string, anyRevision: Option<int>)
    | EvaluateCall(campaign: int, revision: int)
    | RollBackCall(campaign: int, reason: string, revision: int)
  {
    predicate Valid() { StartCall? ==> request.Valid() }
  }

  /** One call at time `now`. */
  ghost function Served(p: Policy, d: Desk, call: Call, now: int): Outcome
    requires Good(p, d) && call.Valid()
  {
    match call
    case StartCall(q) => Start(d, q, now)
    case ObserveCall(id, seen) => Observe(p, d, id, seen, now)
    case KillCall(c, reason, expected) => if reason == "" then Outcome(d, Some(EmptyReason)) else Kill(d, c, expected, now)
    case EvaluateCall(c, expected) => PromotionProtocol.EvaluateCall(p, d, c, expected, now)
    case RollBackCall(c, reason, expected) => if reason == "" then Outcome(d, Some(EmptyReason)) else RollBack(d, c, expected, now)
  }

  lemma StopCallsKeepGood(p: Policy, d: Desk, c: int, anyRevision: Option<int>, revision: int, now: int)
    requires Good(p, d)
    ensures Good(p, Kill(d, c, anyRevision, now).desk) && Good(p, RollBack(d, c, revision, now).desk)
  {
    if c in d.campaigns && Live(d.campaigns[c].stage) {
      StopKeepsGood(p, d, c, now);
    }
  }

  lemma EvaluateCallKeepsGood(p: Policy, d: Desk, c: int, revision: int, now: int)
    requires Good(p, d)
    ensures Good(p, PromotionProtocol.EvaluateCall(p, d, c, revision, now).desk)
  {
    if c in d.campaigns {
      EvaluateKeepsGood(p, d, c, now);
    }
  }

  lemma ServedKeepsGood(p: Policy, d: Desk, call: Call, now: int)
    requires Good(p, d) && call.Valid()
    ensures Good(p, Served(p, d, call, now).desk)
  {
    match call {
      case StartCall(q) => StartKeepsGood(p, d, q, now);
      case ObserveCall(id, seen) => ObserveKeepsGood(p, d, id, seen, now);
      case KillCall(c, reason, expected) => StopCallsKeepGood(p, d, c, expected, 0, now);
      case EvaluateCall(c, expected) => EvaluateCallKeepsGood(p, d, c, expected, now);
      case RollBackCall(c, reason, expected) => StopCallsKeepGood(p, d, c, None, expected, now);
    }
  }

  /** Some campaign for this version was ACTIVE. */
  ghost predicate Sponsored(d: Desk, key: Key) {
    exists c :: c in d.campaigns && c in d.trail && d.campaigns[c].key == key && Graduated(d.trail[c])
  }

  /** A campaign keeps its identity and history, and nothing happens to it once it is over. */
  ghost predicate CampaignGrows(d: Desk, e: Desk, c: int)
    requires c in d.campaigns && c in d.trail
  {
    && c in e.campaigns && c in e.trail && d.trail[c] <= e.trail[c]
    && e.campaigns[c].key == d.campaigns[c].key && e.campaigns[c].baseline == d.campaigns[c].baseline
    && (!Live(d.campaigns[c].stage) ==> e.campaigns[c] == d.campaigns[c] && e.trail[c] == d.trail[c])
  }

  /** What any stretch of a run does. */
  ghost predicate Progress(d: Desk, e: Desk) {
    && RegistryGrows(d.registry, e.registry)
    && (forall o :: o in d.observations ==> o in e.observations && e.observations[o] == d.observations[o])
    && (forall c {:trigger CampaignGrows(d, e, c)} :: c in d.campaigns && c in d.trail ==> CampaignGrows(d, e, c))
    && (forall k {:trigger Sponsored(e, k)} :: Established(e.registry.records, k) ==> Established(d.registry.records, k) || Sponsored(e, k))
  }

  lemma NoProgress(p: Policy, d: Desk)
    requires Good(p, d)
    ensures Progress(d, d)
  {
  }

  lemma ProgressTransitive(d: Desk, e: Desk, f: Desk)
    requires d.campaigns.Keys == d.trail.Keys && e.campaigns.Keys == e.trail.Keys
    requires Progress(d, e) && Progress(e, f)
    ensures Progress(d, f)
  {
    RegistryGrowsTransitive(d.registry, e.registry, f.registry);
    forall c | c in d.campaigns && c in d.trail ensures CampaignGrows(d, f, c) {
      assert CampaignGrows(d, e, c) && CampaignGrows(e, f, c);
    }
    forall k | Established(f.registry.records, k) ensures Established(d.registry.records, k) || Sponsored(f, k) {
      assert Established(e.registry.records, k) || Sponsored(f, k);
      if !Sponsored(f, k) && !Established(d.registry.records, k) {
        assert Sponsored(e, k);
        var c :| c in e.campaigns && c in e.trail && e.campaigns[c].key == k && Graduated(e.trail[c]);
        assert CampaignGrows(e, f, c);
        assert Graduated(f.trail[c]);
      }
    }
  }

  /** One campaign moves while the registry takes the matching step. */
  lemma MovedProgresses(p: Policy, d: Desk, registry: Registry, c: int, stage: Stage, now: int)
    requires Good(p, d) && c in d.campaigns && Live(d.campaigns[c].stage) && RegistryGrows(d.registry, registry)
    requires Follows(p, StageEntry(d.campaigns[c].stage, d.campaigns[c].startedAt), StageEntry(stage, now))
    requires forall k :: Established(registry.records, k) ==>
      Established(d.registry.records, k) || (k == d.campaigns[c].key && stage.ActiveStage?)
    ensures Progress(d, Moved(d.(registry := registry), c, stage, now))
  {
    var e := Moved(d.(registry := registry), c, stage, now);
    forall k | Established(e.registry.records, k) ensures Established(d.registry.records, k) || Sponsored(e, k) {
      if !Established(d.registry.records, k) {
        assert CampaignOk(p, d, c);
        TrailShape(p, d.campaigns[c], d.trail[c]);
        assert e.campaigns[c].key == k && Graduated(e.trail[c]);
      }
    }
    forall k | k in d.campaigns && k in d.trail ensures CampaignGrows(d, e, k) {
    }
  }

  lemma StopProgresses(p: Policy, d: Desk, c: int, now: int)
    requires Good(p, d) && c in d.campaigns && Live(d.campaigns[c].stage)
    ensures Progress(d, Stop(d, c, now).desk)
  {
    StopRegistry(p, d, c, now);
    var e := Stop(d, c, now).desk;
    if e == d {
      NoProgress(p, d);
    } else {
      MovedProgresses(p, d, e.registry, c, if MovedTo(d, e, c, StoppedStage, now) then StoppedStage else RolledBackStage, now);
    }
  }

  lemma ToCanaryProgresses(p: Policy, d: Desk, c: int, now: int)
    requires Good(p, d) && c in d.campaigns && d.campaigns[c].stage.ShadowStage?
    requires now >= d.campaigns[c].startedAt + p.shadowDuration
    ensures Progress(d, Promote(d, c, now).desk)
  {
    PromoteToCanary(p, d, c, now);
    var e := Promote(d, c, now).desk;
    if e == d {
      NoProgress(p, d);
    } else {
      MovedProgresses(p, d, e.registry, c, CanaryStage, now);
    }
  }

  lemma ToActiveProgresses(p: Policy, d: Desk, c: int, now: int)
    requires Good(p, d) && c in d.campaigns && d.campaigns[c].stage.CanaryStage?
    requires now >= d.campaigns[c].startedAt + p.canaryDuration
    ensures Progress(d, Promote(d, c, now).desk)
  {
    PromoteToActive(p, d, c, now);
    var e := Promote(d, c, now).desk;
    if e == d {
      NoProgress(p, d);
    } else {
      MovedProgresses(p, d, e.registry, c, ActiveStage, now);
    }
  }

  lemma EvaluateProgresses(p: Policy, d: Desk, c: int, now: int)
    requires Good(p, d) && c in d.campaigns
    ensures Progress(d, Evaluate(p, d, c, now).desk)
  {
    NoProgress(p, d);
    var stage := d.campaigns[c].stage;
    if !Live(stage) {
      FinishedHasNoRows(p, d, c);
    } else if !stage.ActiveStage? && Enough(p, d.observations, c, stage) && now >= d.campaigns[c].startedAt + p.Duration(stage) {
      if GateMet(p, d.observations, c, stage) {
        if stage.ShadowStage? {
          ToCanaryProgresses(p, d, c, now);
        } else {
          ToActiveProgresses(p, d, c, now);
        }
      } else {
        StopProgresses(p, d, c, now);
      }
    }
  }

  lemma RecordingProgresses(p: Policy, d: Desk, id: int, o: Observation)
    requires Good(p, d) && id !in d.observations
    ensures Progress(d, d.(observations := d.observations[id := o]))
  {
  }

  /** What an accepted observation leads to. */
  lemma RecordedProgresses(p: Policy, recorded: Desk, c: int, o: Observation, now: int)
    requires Good(p, recorded) && c in recorded.campaigns && Live(recorded.campaigns[c].stage)
    ensures var out := if HardStop(o) then Stop(recorded, c, now) else Evaluate(p, recorded, c, now);
      Progress(recorded, out.desk) && Good(p, out.desk)
  {
    if HardStop(o) {
      StopProgresses(p, recorded, c, now);
      StopKeepsGood(p, recorded, c, now);
    } else {
      EvaluateProgresses(p, recorded, c, now);
      EvaluateKeepsGood(p, recorded, c, now);
    }
  }

  lemma ObserveProgresses(p: Policy, d: Desk, id: int, seen: Observation, now: int)
    requires Good(p, d)
    ensures Progress(d, Observe(p, d, id, seen, now).desk)
  {
    NoProgress(p, d);
    var c := seen.campaign;
    if c in d.campaigns && Live(d.campaigns[c].stage) && id !in d.observations && seen.at >= d.campaigns[c].startedAt {
      var o := seen.(stage := d.campaigns[c].stage);
      var recorded := d.(observations := d.observations[id := o]);
      RecordingKeepsGood(p, d, id, o);
      RecordingProgresses(p, d, id, o);
      RecordedProgresses(p, recorded, c, o, now);
      ProgressTransitive(d, recorded, (if HardStop(o) then Stop(recorded, c, now) else Evaluate(p, recorded, c, now)).desk);
    }
  }

  /** A campaign opened on a registry that only grew. */
  lemma OpenedProgresses(p: Policy, d: Desk, registry: Registry, c: int, campaign: Campaign)
    requires Good(p, d) && c !in d.campaigns && RegistryGrows(d.registry, registry)
    requires forall k :: Established(registry.records, k) ==> Established(d.registry.records, k)
    ensures Progress(d, d.(registry := registry)) && Progress(d, Opened(d.(registry := registry), c, campaign))
  {
    var e := d.(registry := registry);
    forall k | k in d.campaigns && k in d.trail ensures CampaignGrows(d, e, k) && CampaignGrows(d, Opened(e, c, campaign), k) {
    }
  }

  lemma StartProgresses(p: Policy, d: Desk, q: Request, now: int)
    requires Good(p, d) && q.Valid()
    ensures Progress(d, Start(d, q, now).desk)
  {
    NoProgress(p, d);
    if q.campaign !in d.campaigns && q.selected {
      var a := Admit(d.registry, q);
      AdmitGrows(d.registry, q);
      OpenedProgresses(p, d, a.registry, q.campaign,
        NewCampaign(q.key, ActiveVersion(d.registry.records, q.key.dna), q.selection, q.proposal, q.identity, now));
    }
  }

  lemma KillProgresses(p: Policy, d: Desk, c: int, expected: Option<int>, now: int)
    requires Good(p, d)
    ensures Progress(d, Kill(d, c, expected, now).desk)
  {
    NoProgress(p, d);
    if c in d.campaigns && Live(d.campaigns[c].stage) {
      StopProgresses(p, d, c, now);
    }
  }

  lemma RollBackProgresses(p: Policy, d: Desk, c: int, expected: int, now: int)
    requires Good(p, d)
    ensures Progress(d, RollBack(d, c, expected, now).desk)
  {
    NoProgress(p, d);
    if c in d.campaigns && Live(d.campaigns[c].stage) {
      StopProgresses(p, d, c, now);
    }
  }

  lemma EvaluateCallProgresses(p: Policy, d: Desk, c: int, expected: int, now: int)
    requires Good(p, d)
    ensures Progress(d, PromotionProtocol.EvaluateCall(p, d, c, expected, now).desk)
  {
    NoProgress(p, d);
    if c in d.campaigns {
      EvaluateProgresses(p, d, c, now);
    }
  }

  lemma ServedProgresses(p: Policy, d: Desk, call: Call, now: int)
    requires Good(p, d) && call.Valid()
    ensures Progress(d, Served(p, d, call, now).desk)
  {
    match call {
      case StartCall(q) => StartProgresses(p, d, q, now);
      case ObserveCall(id, seen) => ObserveProgresses(p, d, id, seen, now);
      case KillCall(c, reason, expected) =>
        if reason == "" { NoProgress(p, d); } else { KillProgresses(p, d, c, expected, now); }
      case EvaluateCall(c, expected) => EvaluateCallProgresses(p, d, c, expected, now);
      case RollBackCall(c, reason, expected) =>
        if reason == "" { NoProgress(p, d); } else { RollBackProgresses(p, d, c, expected, now); }
    }
  }

  datatype Timed = Timed(call: Call, now: int)

  ghost predicate AllValid(calls: seq<Timed>) {
    forall i :: 0 <= i < |calls| ==> calls[i].call.Valid()
  }

  /** The tables after a run of calls, whatever each of them answered. */
  ghost function DeskAfter(p: Policy, d: Desk, calls: seq<Timed>): (e: Desk)
    requires Good(p, d) && AllValid(calls)
    ensures Good(p, e)
    decreases |calls|
  {
    if calls == [] then d
    else
      var last := calls[|calls| - 1];
      var before := DeskAfter(p, d, calls[..|calls| - 1]);
      ServedKeepsGood(p, before, last.call, last.now);
      Served(p, before, last.call, last.now).desk
  }

  /** Over every run: records replay from the log, which only grows; one version per DNA is ACTIVE; RETIRED is final;
      campaigns keep their history, and nobody became ACTIVE without a campaign that passed both gates. */
  lemma {:induction false} RunsProgress(p: Policy, d: Desk, calls: seq<Timed>)
    requires Good(p, d) && AllValid(calls)
    ensures Progress(d, DeskAfter(p, d, calls))
    decreases |calls|
  {
    if calls == [] {
      NoProgress(p, d);
    } else {
      var last := calls[|calls| - 1];
      var before := DeskAfter(p, d, calls[..|calls| - 1]);
      RunsProgress(p, d, calls[..|calls| - 1]);
      ServedKeepsGood(p, before, last.call, last.now);
      ServedProgresses(p, before, last.call, last.now);
      ProgressTransitive(d, before, Served(p, before, last.call, last.now).desk);
    }
  }

  // ---- No harm behind a promotion.

  /** No observation of this stage reported a risk, a duplicated effect, widened permissions or a failed recovery. */
  predicate Unharmed(observations: map<int, Observation>, c: int, stage: Stage) {
    forall o :: o in observations && observations[o].campaign == c && observations[o].stage == stage ==>
      !observations[o].risky && !observations[o].duplicateEffect && !observations[o].expanded && !observations[o].recoveryFailed
  }

  /** A stage left by promotion, or still under way, was never harmed. */
  predicate TrialsClean(observations: map<int, Observation>, c: int, trail: seq<StageEntry>) {
    && (|trail| == 1 || Tried(trail) ==> Unharmed(observations, c, ShadowStage))
    && (|trail| == 1 || (|trail| == 2 && Tried(trail)) || Graduated(trail) ==> Unharmed(observations, c, CanaryStage))
  }

  ghost predicate AllClean(d: Desk) {
    forall c {:trigger TrialsClean(d.observations, c, d.trail[c])} :: c in d.trail ==> TrialsClean(d.observations, c, d.trail[c])
  }

  ghost predicate OthersClean(d: Desk, c: int) {
    forall k {:trigger TrialsClean(d.observations, k, d.trail[k])} :: k in d.trail && k != c ==> TrialsClean(d.observations, k, d.trail[k])
  }

  /** Whatever stopping leaves of campaign `c`, the others stay clean. */
  lemma StopKeepsOthersClean(p: Policy, d: Desk, c: int, now: int)
    requires Good(p, d) && OthersClean(d, c) && c in d.campaigns && Live(d.campaigns[c].stage)
    ensures OthersClean(Stop(d, c, now).desk, c)
  {
    StopRegistry(p, d, c, now);
    var e := Stop(d, c, now).desk;
    forall k | k in e.trail && k != c ensures TrialsClean(e.observations, k, e.trail[k]) {
      assert TrialsClean(d.observations, k, d.trail[k]);
    }
  }

  lemma StopKeepsClean(p: Policy, d: Desk, c: int, now: int)
    requires Good(p, d) && AllClean(d) && c in d.campaigns && Live(d.campaigns[c].stage)
    ensures AllClean(Stop(d, c, now).desk)
  {
    StopRegistry(p, d, c, now);
    StopKeepsOthersClean(p, d, c, now);
    var e := Stop(d, c, now).desk;
    assert CampaignOk(p, d, c);
    TrailShape(p, d.campaigns[c], d.trail[c]);
    assert TrialsClean(d.observations, c, d.trail[c]);
    forall k | k in e.trail ensures TrialsClean(e.observations, k, e.trail[k]) {
    }
  }

  lemma RecordingKeepsOthersClean(d: Desk, id: int, o: Observation)
    requires AllClean(d) && id !in d.observations
    ensures OthersClean(d.(observations := d.observations[id := o]), o.campaign)
  {
    forall k | k in d.trail && k != o.campaign ensures TrialsClean(d.observations[id := o], k, d.trail[k]) {
      assert TrialsClean(d.observations, k, d.trail[k]);
    }
  }

  /** Stopped in the stage in which the harm was seen, a campaign keeps the stages before it clean. */
  lemma HarmedStage(observations: map<int, Observation>, id: int, o: Observation, trail: seq<StageEntry>, entry: StageEntry)
    requires TrialsClean(observations, o.campaign, trail) && id !in observations && entry.stage in {StoppedStage, RolledBackStage}
    requires match o.stage
      case ShadowStage => |trail| == 1
      case CanaryStage => |trail| == 2 && Tried(trail)
      case _ => |trail| == 3 && Graduated(trail)
    ensures TrialsClean(observations[id := o], o.campaign, trail + [entry])
  {
  }

  /** A trial stopped for harm: what it did before stays clean. */
  lemma HarmStopped(p: Policy, d: Desk, id: int, o: Observation, now: int)
    requires Good(p, d) && AllClean(d) && id !in d.observations && o.campaign in d.campaigns
    requires o.stage == d.campaigns[o.campaign].stage && Live(o.stage)
    ensures AllClean(Stop(d.(observations := d.observations[id := o]), o.campaign, now).desk)
  {
    var recorded := d.(observations := d.observations[id := o]);
    RecordingKeepsGood(p, d, id, o);
    RecordingKeepsOthersClean(d, id, o);
    StopKeepsOthersClean(p, recorded, o.campaign, now);
    HarmStoppedItself(p, d, id, o, now);
    var e := Stop(recorded, o.campaign, now).desk;
    forall k | k in e.trail ensures TrialsClean(e.observations, k, e.trail[k]) {
    }
  }

  lemma HarmStoppedItself(p: Policy, d: Desk, id: int, o: Observation, now: int)
    requires Good(p, d) && AllClean(d) && id !in d.observations && o.campaign in d.campaigns
    requires o.stage == d.campaigns[o.campaign].stage && Live(o.stage)
    ensures var e := Stop(d.(observations := d.observations[id := o]), o.campaign, now).desk;
      o.campaign in e.trail && TrialsClean(e.observations, o.campaign, e.trail[o.campaign])
  {
    var c := o.campaign;
    var recorded := d.(observations := d.observations[id := o]);
    RecordingKeepsGood(p, d, id, o);
    StopRegistry(p, recorded, c, now);
    assert CampaignOk(p, d, c);
    TrailShape(p, d.campaigns[c], d.trail[c]);
    assert TrialsClean(d.observations, c, d.trail[c]);
    if !o.stage.ActiveStage? {
      StopOnTrial(p, recorded, c, now);
    }
    var e := Stop(recorded, c, now).desk;
    if e != recorded {
      HarmedStage(d.observations, id, o, d.trail[c], StageEntry(e.campaigns[c].stage, now));
    }
  }

  lemma RecordingKeepsClean(p: Policy, d: Desk, id: int, o: Observation)
    requires Good(p, d) && AllClean(d) && id !in d.observations && o.campaign in d.campaigns && !HardStop(o)
    ensures AllClean(d.(observations := d.observations[id := o]))
  {
    forall k | k in d.trail ensures TrialsClean(d.observations[id := o], k, d.trail[k]) {
      assert TrialsClean(d.observations, k, d.trail[k]);
    }
  }

  lemma EvaluateKeepsClean(p: Policy, d: Desk, c: int, now: int)
    requires Good(p, d) && AllClean(d) && c in d.campaigns
    ensures AllClean(Evaluate(p, d, c, now).desk)
  {
    var stage, e := d.campaigns[c].stage, Evaluate(p, d, c, now).desk;
    if !Live(stage) {
      FinishedHasNoRows(p, d, c);
    } else if !stage.ActiveStage? && Enough(p, d.observations, c, stage) && now >= d.campaigns[c].startedAt + p.Duration(stage) {
      if GateMet(p, d.observations, c, stage) {
        PromoteKeepsClean(p, d, c, now);
      } else {
        StopKeepsClean(p, d, c, now);
      }
    }
  }

  lemma PromoteKeepsClean(p: Policy, d: Desk, c: int, now: int)
    requires Good(p, d) && AllClean(d) && c in d.campaigns && d.campaigns[c].stage in {ShadowStage, CanaryStage}
    ensures AllClean(Promote(d, c, now).desk)
  {
    var e := Promote(d, c, now).desk;
    if d.campaigns[c].stage.ShadowStage? { PromoteToCanary(p, d, c, now); } else { PromoteToActive(p, d, c, now); }
    assert CampaignOk(p, d, c);
    TrailShape(p, d.campaigns[c], d.trail[c]);
    forall k | k in e.trail ensures TrialsClean(e.observations, k, e.trail[k]) {
      assert TrialsClean(d.observations, k, d.trail[k]);
    }
  }

  lemma ObserveKeepsClean(p: Policy, d: Desk, id: int, seen: Observation, now: int)
    requires Good(p, d) && AllClean(d)
    ensures AllClean(Observe(p, d, id, seen, now).desk)
  {
    var c := seen.campaign;
    if c in d.campaigns && Live(d.campaigns[c].stage) && id !in d.observations && seen.at >= d.campaigns[c].startedAt {
      var o := seen.(stage := d.campaigns[c].stage);
      if HardStop(o) {
        HarmStopped(p, d, id, o, now);
      } else {
        RecordingKeepsGood(p, d, id, o);
        RecordingKeepsClean(p, d, id, o);
        EvaluateKeepsClean(p, d.(observations := d.observations[id := o]), c, now);
      }
    }
  }

  lemma StartKeepsClean(p: Policy, d: Desk, q: Request, now: int)
    requires Good(p, d) && AllClean(d) && q.Valid()
    ensures AllClean(Start(d, q, now).desk)
  {
    StartTrails(d, q, now);
    var e := Start(d, q, now).desk;
    forall k | k in e.trail ensures TrialsClean(d.observations, k, e.trail[k]) {
      if k in d.trail {
        assert TrialsClean(d.observations, k, d.trail[k]);
      } else {
        assert forall o :: o in d.observations ==> d.observations[o].campaign != k;
      }
    }
  }

  lemma StartTrails(d: Desk, q: Request, now: int)
    requires q.Valid() && OneActive(d.registry.records) && d.campaigns.Keys == d.trail.Keys
    ensures var e := Start(d, q, now).desk;
      && e.observations == d.observations
      && (e.trail == d.trail || (q.campaign !in d.trail && e.trail == d.trail[q.campaign := [StageEntry(ShadowStage, now)]]))
  {
  }

  lemma ServedKeepsClean(p: Policy, d: Desk, call: Call, now: int)
    requires Good(p, d) && AllClean(d) && call.Valid()
    ensures AllClean(Served(p, d, call, now).desk)
  {
    match call {
      case StartCall(q) => StartKeepsClean(p, d, q, now);
      case ObserveCall(id, seen) => ObserveKeepsClean(p, d, id, seen, now);
      case KillCall(c, reason, expected) =>
        if c in d.campaigns && Live(d.campaigns[c].stage) { StopKeepsClean(p, d, c, now); }
      case EvaluateCall(c, expected) =>
        if c in d.campaigns { EvaluateKeepsClean(p, d, c, now); }
      case RollBackCall(c, reason, expected) =>
        if c in d.campaigns && d.campaigns[c].stage.ActiveStage? { StopKeepsClean(p, d, c, now); }
    }
  }

  lemma {:induction false} RunsStayClean(p: Policy, d: Desk, calls: seq<Timed>)
    requires Good(p, d) && AllClean(d) && AllValid(calls)
    ensures AllClean(DeskAfter(p, d, calls))
    decreases |calls|
  {
    if calls != [] {
      var last := calls[|calls| - 1];
      RunsStayClean(p, d, calls[..|calls| - 1]);
      ServedKeepsClean(p, DeskAfter(p, d, calls[..|calls| - 1]), last.call, last.now);
    }
  }

  /** Over every run from an empty desk: behind a campaign that was ever ACTIVE there is no harmful observation of its trial,
      whatever the policy; and under the strictest policy every observation of its trial is successful and stable. */
  lemma NoHarmBehindActive(p: Policy, d: Desk, calls: seq<Timed>, c: int, o: int)
    requires Good(p, d) && AllValid(calls) && d.campaigns == map[]
    requires var e := DeskAfter(p, d, calls);
      && c in e.campaigns && (e.campaigns[c].stage.ActiveStage? || Graduated(e.trail[c]))
      && o in e.observations && e.observations[o].campaign == c && e.observations[o].stage in {ShadowStage, CanaryStage}
    ensures var seen := DeskAfter(p, d, calls).observations[o];
      && !seen.risky && !seen.duplicateEffect && !seen.expanded && !seen.recoveryFailed
      && (p.minSuccess == 1.0 && p.minStability == 1.0 && p.maxRisk == 0.0 ==> seen.successful && seen.stable)
  {
    var e := DeskAfter(p, d, calls);
    assert d.trail.Keys == {};
    RunsStayClean(p, d, calls);
    assert CampaignOk(p, e, c);
    TrailShape(p, e.campaigns[c], e.trail[c]);
    assert TrialsClean(e.observations, c, e.trail[c]);
    ActiveClearedBothGates(p, e, c);
    if p.minSuccess == 1.0 && p.minStability == 1.0 && p.maxRisk == 0.0 {
      StrictGate(p, e.observations, c, e.observations[o].stage, o);
    }
  }

  ghost predicate PassedBothGates(p: Policy, d: Desk, c: int, key: Key) {
    && c in d.campaigns && d.campaigns[c].key == key
    && |AllIn(d.observations, c, ShadowStage)| >= p.shadowSamples && Clears(p, d.observations, c, ShadowStage)
    && |AllIn(d.observations, c, CanaryStage)| >= p.canarySamples && Clears(p, d.observations, c, CanaryStage)
  }

  /** Starting from an empty registry, every version that is or was ACTIVE has a campaign that passed both gates. */
  lemma ActiveOnlyThroughGates(p: Policy, d: Desk, calls: seq<Timed>, key: Key)
    requires Good(p, d) && AllValid(calls) && d.registry.records == map[]
    requires Established(DeskAfter(p, d, calls).registry.records, key)
    ensures exists c :: PassedBothGates(p, DeskAfter(p, d, calls), c, key)
  {
    var e := DeskAfter(p, d, calls);
    RunsProgress(p, d, calls);
    assert Sponsored(e, key);
    var c :| c in e.campaigns && c in e.trail && e.campaigns[c].key == key && Graduated(e.trail[c]);
    ActiveClearedBothGates(p, e, c);
    assert PassedBothGates(p, e, c, key);
  }
}

/** A rollback that must fail: versions 0, 1, 2, ... of one DNA promoted one after the other, each by its own campaign. */
module Successions {
  import opened Wrappers
  import opened Sorting
  import opened DnaLineage
  import opened DnaRecords
  import opened PromotionProtocol
  import opened PromotionRuns

  /** One good observation is enough for either gate. */
  ghost predicate Lenient(p: Policy) {
    && p.Valid() && p.shadowSamples == 1 && p.canarySamples == 1 && p.shadowDuration == 0 && p.canaryDuration == 0
    && p.minSuccess <= 0.0 && p.minStability <= 0.0 && p.maxRisk >= 1.0
  }

  function Version(n: int): Key { Key(0, n) }

  function Application(n: int): Request {
    Request(n, n, n, n, true, Version(n), Candidate, n, [], [])
  }

  function Praise(n: int, at: int): Observation {
    Observation(n, ShadowStage, true, true, false, false, false, false, at)
  }

  /** Start campaign `n` and report one good observation in Shadow and one in Canary. */
  function Trial(n: int, at: int): seq<Timed> {
    [Timed(StartCall(Application(n)), at), Timed(ObserveCall(2 * n, Praise(n, at)), at), Timed(ObserveCall(2 * n + 1, Praise(n, at)), at)]
  }

  function Trials(n: nat, at: int): (calls: seq<Timed>)
    ensures AllValid(calls)
  {
    if n == 0 then [] else Trials(n - 1, at) + Trial(n - 1, at)
  }

  const EMPTY := Desk(Registry(map[], map[], []), map[], map[], map[])

  lemma EmptyIsGood(p: Policy)
    requires p.Valid()
    ensures Good(p, EMPTY)
  {
    var parents := EMPTY.registry.parents;
    forall w | Chain(parents, w) ensures |w| <= MAX_DEPTH + 1 {
      assert |w| > 1 ==> w[0 + 1] in ParentsOf(parents, w[0]);
    }
    forall k ensures AgreesAt(EMPTY.registry.records, EMPTY.registry.log, k) {
    }
  }

  lemma RatesInRange(k: nat, n: nat)
    requires 0 < n && k <= n
    ensures 0.0 <= Rate(k, n) <= 1.0
  {
  }

  lemma LenientGate(p: Policy, observations: map<int, Observation>, c: int, stage: Stage, id: int)
    requires Lenient(p) && id in observations && observations[id].campaign == c && observations[id].stage == stage
    ensures GateMet(p, observations, c, stage)
  {
    var rows := Rows(observations, c, stage);
    assert id in rows;
    SubsetCount({id}, rows);
    CountBounded(observations, rows, (o: Observation) => o.successful);
    CountBounded(observations, rows, (o: Observation) => o.stable);
    CountBounded(observations, rows, (o: Observation) => o.risky);
    RatesInRange(Count(observations, rows, (o: Observation) => o.successful), |rows|);
    RatesInRange(Count(observations, rows, (o: Observation) => o.stable), |rows|);
    RatesInRange(Count(observations, rows, (o: Observation) => o.risky), |rows|);
  }

  lemma CountBounded(observations: map<int, Observation>, rows: set<int>, wanted: Observation -> bool)
    ensures Count(observations, rows, wanted) <= |rows|
  {
    var counted := set o | o in rows && o in observations && wanted(observations[o]);
    SubsetCount(counted, rows);
  }

  lemma {:induction false} SubsetCount(a: set<int>, b: set<int>)
    requires a <= b
    ensures |a| <= |b|
  {
    EmptyOrInhabited(a);
    if a != {} {
      var x :| x in a;
      SubsetCount(a - {x}, b - {x});
    }
  }

  ghost predicate KnownVersions(d: Desk, n: nat) {
    forall k :: k in d.registry.records ==> k == Version(k.version) && 0 <= k.version < n && d.registry.records[k].digest == k.version
  }

  /** The desk after campaigns 0 to n - 1. */
  ghost predicate After(d: Desk, n: nat) {
    && (forall c :: c in d.campaigns <==> 0 <= c < n)
    && (forall o :: o in d.observations ==> 0 <= o < 2 * n)
    && KnownVersions(d, n)
    && (forall c :: c in d.campaigns ==> ServedOut(d.campaigns[c], c))
    && (n > 0 ==> IsActive(d.registry.records, Version(n - 1)))
  }

  ghost predicate ServedOut(campaign: Campaign, c: int) {
    && campaign.stage.ActiveStage? && campaign.key == Version(c) && campaign.selection == c && campaign.proposal == c
    && campaign.revision == 2 && campaign.baseline == if c == 0 then None else Some(c - 1)
  }

  /** Campaign `n` under way, in Shadow or in Canary, after those before it. */
  ghost predicate OnTrial(d: Desk, n: nat, stage: Stage, bound: int, at: int) {
    && (forall c :: c in d.campaigns <==> 0 <= c <= n)
    && (forall c :: 0 <= c < n ==> ServedOut(d.campaigns[c], c))
    && (forall o :: o in d.observations ==> 0 <= o < bound)
    && KnownVersions(d, n + 1)
    && d.campaigns[n] == NewCampaign(Version(n), if n == 0 then None else Some(n - 1), n, n, n, at)
         .(stage := stage, revision := if stage.ShadowStage? then 0 else 1)
    && Version(n) in d.registry.records && d.registry.records[Version(n)].status == (if stage.ShadowStage? then Shadow else Canary)
  }

  lemma LastIsBaseline(d: Desk, n: nat)
    requires After(d, n) && OneActive(d.registry.records)
    ensures ActiveVersion(d.registry.records, 0) == if n == 0 then None else Some(n - 1)
  {
    if n > 0 {
      assert IsActive(d.registry.records, Key(0, n - 1));
    }
    var baseline := ActiveVersion(d.registry.records, 0);
    assert baseline.Some? ==> IsActive(d.registry.records, Version(baseline.value));
  }

  lemma AdmitsNext(d: Desk, n: nat)
    requires After(d, n)
    ensures Admit(d.registry, Application(n)).error.None?
    ensures Admit(d.registry, Application(n)).registry.records == d.registry.records[Version(n) := Record(Shadow, 2, n)]
  {
    var q, r := Application(n), d.registry;
    assert MayRegister(r, q.key, q.digest, q.parents);
    RegisterExact(r, q.key, q.status, q.digest, q.parents, q.digests);
    assert Register(r, q.key, q.status, q.digest, q.parents, q.digests) == Ok(Registered(r, q.key, q.digest, q.parents));
  }

  lemma OpensNext(d: Desk, registry: Registry, n: nat, at: int)
    requires After(d, n) && registry.records == d.registry.records[Version(n) := Record(Shadow, 2, n)]
    ensures OnTrial(Opened(d.(registry := registry), n, NewCampaign(Version(n), if n == 0 then None else Some(n - 1), n, n, n, at)),
                    n, ShadowStage, 2 * n, at)
  {
  }

  lemma SlotIsFree(d: Desk, n: nat)
    requires After(d, n)
    ensures n !in d.campaigns && !SlotTakenBy(d.campaigns, n, n)
  {
    forall c | c in d.campaigns ensures d.campaigns[c].selection != n {
      assert ServedOut(d.campaigns[c], c);
    }
  }

  /** Applying with a version the registry has not seen. */
  lemma StartsNext(d: Desk, n: nat, at: int)
    requires OneActive(d.registry.records) && After(d, n)
    ensures OnTrial(Start(d, Application(n), at).desk, n, ShadowStage, 2 * n, at)
  {
    AdmitsNext(d, n);
    LastIsBaseline(d, n);
    SlotIsFree(d, n);
    OpensNext(d, Admit(d.registry, Application(n)).registry, n, at);
  }

  /** One good observation is recorded and evaluated at once. */
  lemma PraiseCounts(p: Policy, d: Desk, c: int, id: int, at: int)
    requires Good(p, d) && Lenient(p) && c in d.campaigns && id !in d.observations
    requires d.campaigns[c].stage in {ShadowStage, CanaryStage} && d.campaigns[c].startedAt == at
    ensures var recorded := d.(observations := d.observations[id := Praise(c, at).(stage := d.campaigns[c].stage)]);
      Observe(p, d, id, Praise(c, at), at) == Promote(recorded, c, at)
  {
    var o := Praise(c, at).(stage := d.campaigns[c].stage);
    LenientGate(p, d.observations[id := o], c, o.stage, id);
  }

  lemma ToCanary(d: Desk, n: nat, at: int)
    requires n in d.trail && OneActive(d.registry.records) && OnTrial(d, n, ShadowStage, 2 * n + 1, at)
    ensures OnTrial(Promote(d, n, at).desk, n, CanaryStage, 2 * n + 1, at)
  {
  }

  /** The registry once the version is ACTIVE. */
  lemma ActivatedVersion(r: Registry, key: Key)
    requires OneActive(r.records) && key in r.records && r.records[key].status == Canary
    ensures var t := Activate(r, key, r.records[key].revision);
      && t.Ok? && t.value.records.Keys == r.records.Keys && IsActive(t.value.records, key)
      && forall k :: k in r.records ==> t.value.records[k].digest == r.records[k].digest
  {
    ActivateExact(r, key, r.records[key].revision);
    ActivateEffect(r, key, r.records[key].revision);
    SameDigests(r, key);
  }

  lemma ServedMoves(d: Desk, registry: Registry, n: nat, at: int)
    requires n in d.trail && OnTrial(d, n, CanaryStage, 2 * n + 2, at)
    requires registry.records.Keys == d.registry.records.Keys && IsActive(registry.records, Version(n))
    requires forall k :: k in d.registry.records ==> registry.records[k].digest == d.registry.records[k].digest
    ensures After(Moved(d.(registry := registry), n, ActiveStage, at), n + 1)
  {
  }

  lemma ToActive(d: Desk, n: nat, at: int)
    requires n in d.trail && OneActive(d.registry.records) && OnTrial(d, n, CanaryStage, 2 * n + 2, at)
    ensures After(Promote(d, n, at).desk, n + 1)
  {
    ActivatedVersion(d.registry, Version(n));
    ServedMoves(d, Activate(d.registry, Version(n), d.registry.records[Version(n)].revision).value, n, at);
  }

  /** It takes a campaign from Shadow to Canary. */
  lemma PassesShadow(p: Policy, d: Desk, n: nat, at: int)
    requires Good(p, d) && Lenient(p) && OnTrial(d, n, ShadowStage, 2 * n, at)
    ensures OnTrial(Observe(p, d, 2 * n, Praise(n, at), at).desk, n, CanaryStage, 2 * n + 1, at)
  {
    PraiseCounts(p, d, n, 2 * n, at);
    ToCanary(d.(observations := d.observations[2 * n := Praise(n, at).(stage := ShadowStage)]), n, at);
  }

  /** Another one takes it from Canary to ACTIVE. */
  lemma PassesCanary(p: Policy, d: Desk, n: nat, at: int)
    requires Good(p, d) && Lenient(p) && OnTrial(d, n, CanaryStage, 2 * n + 1, at)
    ensures After(Observe(p, d, 2 * n + 1, Praise(n, at), at).desk, n + 1)
  {
    PraiseCounts(p, d, n, 2 * n + 1, at);
    ToActive(d.(observations := d.observations[2 * n + 1 := Praise(n, at).(stage := CanaryStage)]), n, at);
  }

  lemma SameDigests(r: Registry, key: Key)
    requires OneActive(r.records) && key in r.records
    ensures var t := Activate(r, key, r.records[key].revision);
      t.Ok? ==> t.value.records.Keys == r.records.Keys && forall k :: k in r.records ==> t.value.records[k].digest == r.records[k].digest
  {
  }

  lemma DeskAfterLast(p: Policy, d: Desk, calls: seq<Timed>, last: Timed)
    requires Good(p, d) && AllValid(calls) && last.call.Valid()
    ensures AllValid(calls + [last]) && DeskAfter(p, d, calls + [last]) == Served(p, DeskAfter(p, d, calls), last.call, last.now).desk
  {
    assert (calls + [last])[..|calls|] == calls;
  }

  /** The run has served the first `n` campaigns, and taken `k` of the three calls of the next. */
  ghost predicate Reached(p: Policy, start: Desk, calls: seq<Timed>, n: nat, k: nat, at: int) {
    && Good(p, start) && AllValid(calls)
    && var d := DeskAfter(p, start, calls);
       match k
       case 0 => After(d, n)
       case 1 => OnTrial(d, n, ShadowStage, 2 * n, at)
       case 2 => OnTrial(d, n, CanaryStage, 2 * n + 1, at)
       case _ => false
  }

  lemma NextCall(p: Policy, start: Desk, calls: seq<Timed>, n: nat, k: nat, at: int)
    requires Lenient(p) && Reached(p, start, calls, n, k, at)
    ensures if k == 2 then Reached(p, start, calls + [Trial(n, at)[2]], n + 1, 0, at) else Reached(p, start, calls + [Trial(n, at)[k]], n, k + 1, at)
  {
    var d := DeskAfter(p, start, calls);
    DeskAfterLast(p, start, calls, Trial(n, at)[k]);
    match k {
      case 0 => StartsNext(d, n, at);
      case 1 => PassesShadow(p, d, n, at);
      case 2 => PassesCanary(p, d, n, at);
    }
  }

  /** One of the three calls of a trial leads to the next stage. */
  ghost predicate LeadsFrom(reached: (seq<Timed>, nat, nat) -> bool, at: int, calls: seq<Timed>, n: nat, k: nat)
    requires k < 3
  {
    reached(calls, n, k) ==> reached(calls + [Trial(n, at)[k]], if k == 2 then n + 1 else n, if k == 2 then 0 else k + 1)
  }

  ghost predicate Leads(reached: (seq<Timed>, nat, nat) -> bool, at: int, k: nat)
    requires k < 3
  {
    forall calls: seq<Timed>, n: nat {:trigger LeadsFrom(reached, at, calls, n, k)} :: LeadsFrom(reached, at, calls, n, k)
  }

  lemma {:induction false} TrialsLead(reached: (seq<Timed>, nat, nat) -> bool, n: nat, at: int)
    requires reached([], 0, 0) && Leads(reached, at, 0) && Leads(reached, at, 1) && Leads(reached, at, 2)
    ensures reached(Trials(n, at), n, 0)
  {
    if n > 0 {
      TrialsLead(reached, n - 1, at);
      var calls, t := Trials(n - 1, at), Trial(n - 1, at);
      assert LeadsFrom(reached, at, calls, n - 1, 0);
      assert LeadsFrom(reached, at, calls + [t[0]], n - 1, 1);
      assert LeadsFrom(reached, at, calls + [t[0]] + [t[1]], n - 1, 2);
      assert calls + t == calls + [t[0]] + [t[1]] + [t[2]];
    }
  }

  ghost function ReachedBy(p: Policy, start: Desk, at: int): (seq<Timed>, nat, nat) -> bool {
    (calls: seq<Timed>, n: nat, k: nat) => Reached(p, start, calls, n, k, at)
  }

  lemma StartLeadsFrom(p: Policy, start: Desk, calls: seq<Timed>, n: nat, at: int)
    requires Lenient(p)
    ensures LeadsFrom(ReachedBy(p, start, at), at, calls, n, 0)
  {
    if Reached(p, start, calls, n, 0, at) {
      NextCall(p, start, calls, n, 0, at);
    }
  }

  lemma StartLeads(p: Policy, start: Desk, at: int)
    requires Lenient(p)
    ensures Leads(ReachedBy(p, start, at), at, 0)
  {
    forall calls: seq<Timed>, n: nat ensures LeadsFrom(ReachedBy(p, start, at), at, calls, n, 0) {
      StartLeadsFrom(p, start, calls, n, at);
    }
  }

  lemma ShadowLeadsFrom(p: Policy, start: Desk, calls: seq<Timed>, n: nat, at: int)
    requires Lenient(p)
    ensures LeadsFrom(ReachedBy(p, start, at), at, calls, n, 1)
  {
    if Reached(p, start, calls, n, 1, at) {
      NextCall(p, start, calls, n, 1, at);
    }
  }

  lemma ShadowLeads(p: Policy, start: Desk, at: int)
    requires Lenient(p)
    ensures Leads(ReachedBy(p, start, at), at, 1)
  {
    forall calls: seq<Timed>, n: nat ensures LeadsFrom(ReachedBy(p, start, at), at, calls, n, 1) {
      ShadowLeadsFrom(p, start, calls, n, at);
    }
  }

  lemma CanaryLeadsFrom(p: Policy, start: Desk, calls: seq<Timed>, n: nat, at: int)
    requires Lenient(p)
    ensures LeadsFrom(ReachedBy(p, start, at), at, calls, n, 2)
  {
    if Reached(p, start, calls, n, 2, at) {
      NextCall(p, start, calls, n, 2, at);
    }
  }

  lemma CanaryLeads(p: Policy, start: Desk, at: int)
    requires Lenient(p)
    ensures Leads(ReachedBy(p, start, at), at, 2)
  {
    forall calls: seq<Timed>, n: nat ensures LeadsFrom(ReachedBy(p, start, at), at, calls, n, 2) {
      CanaryLeadsFrom(p, start, calls, n, at);
    }
  }

  lemma TrialsSucceed(p: Policy, start: Desk, n: nat, at: int)
    requires Lenient(p) && Good(p, start) && After(start, 0)
    ensures ReachedBy(p, start, at)(Trials(n, at), n, 0)
  {
    assert ReachedBy(p, start, at)([], 0, 0);
    StartLeads(p, start, at);
    ShadowLeads(p, start, at);
    CanaryLeads(p, start, at);
    TrialsLead(ReachedBy(p, start, at), n, at);
  }

  lemma OnlyLastRollsBack(p: Policy, d: Desk, n: nat, c: int, now: int)
    requires Good(p, d) && After(d, n) && 1 <= c < n
    ensures c in d.campaigns && d.campaigns[c].stage.ActiveStage? && d.campaigns[c].baseline.Some?
    ensures RollBack(d, c, d.campaigns[c].revision, now).error.None? <==> c == n - 1
  {
    assert ServedOut(d.campaigns[c], c);
    StopExact(p, d, c, now);
    OnlyOneOther(d.registry.records, Version(n - 1));
  }

  lemma AfterRun(p: Policy, start: Desk, calls: seq<Timed>, n: nat, at: int, c: int, now: int)
    requires ReachedBy(p, start, at)(calls, n, 0) && 1 <= c < n
    ensures Good(p, start) && AllValid(calls)
    ensures var d := DeskAfter(p, start, calls);
      && c in d.campaigns && d.campaigns[c].stage.ActiveStage? && d.campaigns[c].baseline.Some?
      && (RollBack(d, c, d.campaigns[c].revision, now).error.None? <==> c == n - 1)
  {
    OnlyLastRollsBack(p, DeskAfter(p, start, calls), n, c, now);
  }

  /** After any number of successions from an empty registry, every campaign but the first is ACTIVE with a baseline, and
      yet all of these but the last cannot be rolled back. */
  lemma ReplacedCampaignsCannotRollBack(p: Policy, n: nat, at: int, now: int, c: int)
    requires Lenient(p) && 1 <= c < n
    ensures Good(p, EMPTY)
    ensures var d := DeskAfter(p, EMPTY, Trials(n, at));
      && c in d.campaigns && d.campaigns[c].stage.ActiveStage? && d.campaigns[c].baseline.Some?
      && (RollBack(d, c, d.campaigns[c].revision, now).error.None? <==> c == n - 1)
  {
    EmptyIsGood(p);
    TrialsSucceed(p, EMPTY, n, at);
    AfterRun(p, EMPTY, Trials(n, at), n, at, c, now);
  }
}

module DnaPromotion {
  import opened Wrappers
  import opened DnaLineage
  import opened DnaRecords
  import opened DnaRepository
  import opened PromotionProtocol

  class DnaPromotionController {
    const registry: PersistentDnaRegistry
    const policy: Policy
    var campaigns: map<int, Campaign>
    var observations: map<int, Observation>
    var trail: map<int, seq<StageEntry>>

    ghost function Now(): Desk
      reads this, registry
    {
      Desk(registry.tables, campaigns, observations, trail)
    }

    ghost predicate Valid()
      reads this, registry
    {
      Good(policy, Now())
    }

    constructor (registry: PersistentDnaRegistry, policy: Policy)
      requires Sound(registry.tables) && policy.Valid()
      ensures Valid() && this.registry == registry && this.policy == policy && campaigns == map[]
    {
      this.registry, this.policy := registry, policy;
      campaigns, observations, trail := map[], map[], map[];
    }

    method Change(c: int, stage: Stage, now: int)
      requires c in campaigns && c in trail
      modifies this`campaigns, this`trail
      ensures Now() == Moved(old(Now()), c, stage, now)
    {
      var campaign := campaigns[c];
      campaigns := campaigns[c := campaign.(stage := stage, startedAt := now, revision := campaign.revision + 1)];
      trail := trail[c := trail[c] + [StageEntry(stage, now)]];
    }

    method StopCampaign(c: int, now: int) returns (e: Option<PromotionError>)
      requires Valid() && c in campaigns && Live(campaigns[c].stage)
      modifies this, registry
      ensures Valid() && Outcome(Now(), e) == Stop(old(Now()), c, now)
    {
      StopKeepsGood(policy, Now(), c, now);
      assert CampaignOk(policy, Now(), c);
      var campaign := campaigns[c];
      var record := registry.tables.records[campaign.key];
      if campaign.stage.ActiveStage? && campaign.baseline.Some? {
        var target := Key(campaign.key.dna, campaign.baseline.value);
        var r := registry.RollbackTo(campaign.key.dna, target.version, record.revision, registry.tables.records[target].revision);
        if r.Err? {
          return Some(Refused(r.error));
        }
        Change(c, RolledBackStage, now);
        return None;
      }
      if record.status in {Shadow, Canary} {
        var r := registry.TransitionTo(campaign.key, Retired, record.revision);
        if r.Err? {
          return Some(Refused(r.error));
        }
      }
      Change(c, StoppedStage, now);
      return None;
    }

    method EvaluateStage(c: int, now: int) returns (e: Option<PromotionError>)
      requires Valid() && c in campaigns
      modifies this, registry
      ensures Valid() && Outcome(Now(), e) == Evaluate(policy, old(Now()), c, now)
    {
      EvaluateKeepsGood(policy, Now(), c, now);
      assert CampaignOk(policy, Now(), c);
      var campaign := campaigns[c];
      if campaign.stage.ActiveStage? {
        return None;
      }
      if |Rows(observations, c, campaign.stage)| < policy.Samples(campaign.stage)
        || now < campaign.startedAt + policy.Duration(campaign.stage)
      {
        return None;
      }
      if !Live(campaign.stage) {
        FinishedHasNoRows(policy, Now(), c);
      }
      if !GateMet(policy, observations, c, campaign.stage) {
        e := StopCampaign(c, now);
        return;
      }
      e := PromoteCampaign(c, now);
    }

    method PromoteCampaign(c: int, now: int) returns (e: Option<PromotionError>)
      requires Valid() && c in campaigns && campaigns[c].stage in {ShadowStage, CanaryStage}
      requires GateMet(policy, observations, c, campaigns[c].stage)
      requires now >= campaigns[c].startedAt + policy.Duration(campaigns[c].stage)
      modifies this, registry
      ensures Valid() && Outcome(Now(), e) == Promote(old(Now()), c, now)
    {
      assert CampaignOk(policy, Now(), c);
      var campaign := campaigns[c];
      var record := registry.tables.records[campaign.key];
      if campaign.stage.ShadowStage? {
        ShadowPromotionKeepsGood(policy, Now(), c, now);
        var r := registry.TransitionTo(campaign.key, Canary, record.revision);
        if r.Err? {
          return Some(Refused(r.error));
        }
        Change(c, CanaryStage, now);
        return None;
      }
      CanaryPromotionKeepsGood(policy, Now(), c, now);
      ActivateExact(registry.tables, campaign.key, record.revision);
      var r := registry.ActivateVersion(campaign.key, record.revision);
      if r.Err? {
        return Some(Refused(r.error));
      }
      Change(c, ActiveStage, now);
      return None;
    }

    method ObserveOne(id: int, seen: Observation, now: int) returns (e: Option<PromotionError>)
      requires Valid()
      modifies this, registry
      ensures Valid() && Outcome(Now(), e) == Observe(policy, old(Now()), id, seen, now)
    {
      ObserveKeepsGood(policy, Now(), id, seen, now);
      var c := seen.campaign;
      if c !in campaigns {
        return Some(NoCampaign);
      }
      if !Live(campaigns[c].stage) {
        return Some(Finished);
      }
      var o := seen.(stage := campaigns[c].stage);
      if id in observations {
        return if observations[id] == o then None else Some(OtherObservation);
      }
      if o.at < campaigns[c].startedAt {
        return Some(Predates);
      }
      RecordingKeepsGood(policy, Now(), id, o);
      observations := observations[id := o];
      if HardStop(o) {
        e := StopCampaign(c, now);
      } else {
        e := EvaluateStage(c, now);
      }
    }

    method KillCampaign(c: int, reason: string, expected: Option<int>, now: int) returns (e: Option<PromotionError>)
      requires Valid()
      modifies this, registry
      ensures Valid()
      ensures Outcome(Now(), e) == if reason == "" then Outcome(old(Now()), Some(EmptyReason)) else Kill(old(Now()), c, expected, now)
    {
      if reason == "" {
        return Some(EmptyReason);
      }
      if c !in campaigns {
        return Some(NoCampaign);
      }
      if expected.Some? && campaigns[c].revision != expected.value {
        return Some(StaleRevision);
      }
      if campaigns[c].stage.RolledBackStage? || campaigns[c].stage.StoppedStage? {
        return None;
      }
      e := StopCampaign(c, now);
    }

    method EvaluateCampaign(c: int, expected: int, now: int) returns (e: Option<PromotionError>)
      requires Valid()
      modifies this, registry
      ensures Valid() && Outcome(Now(), e) == EvaluateCall(policy, old(Now()), c, expected, now)
    {
      if c !in campaigns {
        return Some(NoCampaign);
      }
      if campaigns[c].revision != expected {
        return Some(StaleRevision);
      }
      e := EvaluateStage(c, now);
    }

    method RollBackCampaign(c: int, reason: string, expected: int, now: int) returns (e: Option<PromotionError>)
      requires Valid()
      modifies this, registry
      ensures Valid()
      ensures Outcome(Now(), e) == if reason == "" then Outcome(old(Now()), Some(EmptyReason)) else RollBack(old(Now()), c, expected, now)
    {
      if reason == "" {
        return Some(EmptyReason);
      }
      if c !in campaigns {
        return Some(NoCampaign);
      }
      if campaigns[c].revision != expected {
        return Some(StaleRevision);
      }
      if !campaigns[c].stage.ActiveStage? {
        return Some(NotActive);
      }
      e := StopCampaign(c, now);
    }

    method AdmitCandidate(q: Request) returns (e: Option<PromotionError>)
      requires Sound(registry.tables) && q.Valid()
      modifies registry
      ensures Admission(registry.tables, e) == Admit(old(registry.tables), q)
      ensures RegistryGrows(old(registry.tables), registry.tables)
      ensures e.None? <==> Admissible(old(registry.tables), q)
    {
      AdmitGrows(registry.tables, q);
      AdmitExact(registry.tables, q);
      if q.key !in registry.tables.records {
        var r := registry.RegisterVersion(q.key, q.status, q.digest, q.parents, q.digests);
        if r.Err? {
          return Some(Refused(r.error));
        }
      }
      Advance(q.key, Candidate, Validated);
      Advance(q.key, Validated, Shadow);
      return if registry.tables.records[q.key].status == Shadow then None else Some(NotEligible);
    }

    /** One step towards SHADOW. */
    method Advance(key: Key, from: Status, to: Status)
      requires Sound(registry.tables) && key in registry.tables.records && Allowed(from, to) && to != Active
      modifies registry
      ensures Sound(registry.tables) && registry.tables == Stepped(old(registry.tables), key, from, to)
    {
      if registry.tables.records[key].status == from {
        var r := registry.TransitionTo(key, to, registry.tables.records[key].revision);
      }
    }

    /** `start`: only a selected candidate, only into SHADOW, remembering who is ACTIVE now. */
    method StartCampaign(q: Request, now: int) returns (e: Option<PromotionError>)
      requires Valid() && q.Valid()
      modifies this, registry
      ensures Valid() && Outcome(Now(), e) == Start(old(Now()), q, now)
      ensures e.None? <==>
        if q.campaign in old(campaigns) then old(campaigns)[q.campaign].request == q.identity
        else
          && q.selected && Admissible(old(registry.tables), q)
          && forall c :: c in old(campaigns) ==> old(campaigns)[c].selection != q.selection || old(campaigns)[c].proposal != q.proposal
      ensures e.Some? ==> campaigns == old(campaigns) && trail == old(trail)
      ensures q.campaign !in old(campaigns) && e.None? ==>
        && q.key in registry.tables.records && registry.tables.records[q.key].status == Shadow
        && campaigns == old(campaigns)[q.campaign :=
             NewCampaign(q.key, ActiveVersion(old(registry.tables).records, q.key.dna), q.selection, q.proposal, q.identity, now)]
    {
      StartKeepsGood(policy, Now(), q, now);
      StartExact(Now(), q, now);
      StartEffect(Now(), q, now);
      if q.campaign in campaigns {
        return if campaigns[q.campaign].request == q.identity then None else Some(OtherRequest);
      }
      if !q.selected {
        return Some(NotSelected);
      }
      e := StartSelected(q, now);
    }

    /** The rest of `start`, after the checks that change nothing. */
    method StartSelected(q: Request, now: int) returns (e: Option<PromotionError>)
      requires Sound(registry.tables) && q.Valid() && q.campaign !in campaigns && q.selected
      modifies this`campaigns, this`trail, registry
      ensures Outcome(Now(), e) == Start(old(Now()), q, now)
    {
      var baseline := ActiveVersion(registry.tables.records, q.key.dna);
      e := AdmitCandidate(q);
      if e.Some? {
        return;
      }
      if SlotTakenBy(campaigns, q.selection, q.proposal) {
        return Some(SlotTaken);
      }
      campaigns := campaigns[q.campaign := NewCampaign(q.key, baseline, q.selection, q.proposal, q.identity, now)];
      trail := trail[q.campaign := [StageEntry(ShadowStage, now)]];
    }
  }
}
