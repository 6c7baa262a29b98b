/**
 * The decision engine: a snapshot of derived states is classified as alert (unusable
 * evidence), escalate (a level outside its acceptable range) or no action, with the weakest
 * domain confidence; every decision is recorded in the decision log with its snapshot.
 */
module Decision {
  import opened Wrappers
  import opened Schemas
  import opened Policies

  /** Below this confidence a domain's state is unusable. */
  const CONFIDENCE_FLOOR: real := 0.5

  datatype DecisionOutcome = NoAction | Escalate | Alert

  datatype DecisionSchema = DecisionSchema(
    outcome: DecisionOutcome,
    confidence: real,
    policyVersion: string,
    created: Timestamp)

  /** One saved decision with the snapshot that produced it. */
  datatype SavedDecision = SavedDecision(result: DecisionSchema, snapshot: DerivedStateSnapshot)

  /**
   * A snapshot is usable when all three domains are present, each with at least the floor
   * confidence and at least one sample.
   */
  function IsSnapshotValid(s: DerivedStateSnapshot): (r: bool)
    ensures r <==>
      && s.climate.Some? && s.soilMoisture.Some? && s.light.Some?
      && CONFIDENCE_FLOOR <= s.climate.value.confidence
      && CONFIDENCE_FLOOR <= s.soilMoisture.value.confidence
      && CONFIDENCE_FLOOR <= s.light.value.confidence
      && s.climate.value.sampleCount > 0
      && s.soilMoisture.value.sampleCount > 0
      && s.light.value.sampleCount > 0
  {
    if s.climate.None? then false
    else if s.soilMoisture.None? then false
    else if s.light.None? then false
    else if s.climate.value.confidence < CONFIDENCE_FLOOR then false
    else if s.soilMoisture.value.confidence < CONFIDENCE_FLOOR then false
    else if s.light.value.confidence < CONFIDENCE_FLOOR then false
    else if s.climate.value.sampleCount <= 0 then false
    else if s.soilMoisture.value.sampleCount <= 0 then false
    else if s.light.value.sampleCount <= 0 then false
    else true
  }

  /**
   * A violation is a present climate state whose temperature or humidity level is not ok, or
   * a present soil-moisture state whose level is not ok; the light state plays no part.
   */
  function HasPolicyViolations(s: DerivedStateSnapshot): (r: bool)
    ensures r <==>
      || (s.climate.Some? && s.climate.value.temperatureLevel != TemperatureLevel.Ok)
      || (s.climate.Some? && s.climate.value.humidityLevel != HumidityLevel.Ok)
      || (s.soilMoisture.Some? && s.soilMoisture.value.level != SoilMoistureLevel.Ok)
  {
    if s.climate.Some? && s.climate.value.temperatureLevel != TemperatureLevel.Ok then true
    else if s.climate.Some? && s.climate.value.humidityLevel != HumidityLevel.Ok then true
    else if s.soilMoisture.Some? && s.soilMoisture.value.level != SoilMoistureLevel.Ok then true
    else false
  }

  /** The smallest element of a non-empty list. */
  function MinOf(values: seq<real>): (m: real)
    requires values != []
    ensures m in values
    ensures forall v :: v in values ==> m <= v
  {
    if |values| == 1 then values[0]
    else
      var rest := MinOf(values[1..]);
      assert forall v :: v in values ==> v == values[0] || v in values[1..];
      if values[0] <= rest then values[0] else rest
  }

  /** The confidences of the present domains, in the order climate, soil moisture, light. */
  function Confidences(s: DerivedStateSnapshot): seq<real>
  {
    (if s.climate.Some? then [s.climate.value.confidence] else [])
    + (if s.soilMoisture.Some? then [s.soilMoisture.value.confidence] else [])
    + (if s.light.Some? then [s.light.value.confidence] else [])
  }

  /**
   * The weakest-link confidence: no larger than any present domain's confidence and equal to
   * one of them; 0 when no domain is present.
   */
  function AggregateConfidence(s: DerivedStateSnapshot): (r: real)
    ensures s.climate.Some? ==> r <= s.climate.value.confidence
    ensures s.soilMoisture.Some? ==> r <= s.soilMoisture.value.confidence
    ensures s.light.Some? ==> r <= s.light.value.confidence
    ensures s.climate.None? && s.soilMoisture.None? && s.light.None? ==> r == 0.0
    ensures s.climate.Some? || s.soilMoisture.Some? || s.light.Some? ==>
      || (s.climate.Some? && r == s.climate.value.confidence)
      || (s.soilMoisture.Some? && r == s.soilMoisture.value.confidence)
      || (s.light.Some? && r == s.light.value.confidence)
  {
    var confidences := Confidences(s);
    assert s.climate.Some? ==> s.climate.value.confidence in confidences;
    assert s.soilMoisture.Some? ==> s.soilMoisture.value.confidence in confidences;
    assert s.light.Some? ==> s.light.value.confidence in confidences;
    if confidences != [] then MinOf(confidences) else 0.0
  }

  /** The decision that the engine takes on a snapshot under a policy version at time now. */
  function Evaluate(s: DerivedStateSnapshot, policyVersion: string, now: Timestamp): (r: DecisionSchema)
    ensures r.policyVersion == policyVersion && r.created == now
  {
    if !IsSnapshotValid(s) then
      DecisionSchema(Alert, 0.0, policyVersion, now)
    else if HasPolicyViolations(s) then
      DecisionSchema(Escalate, AggregateConfidence(s), policyVersion, now)
    else
      DecisionSchema(NoAction, AggregateConfidence(s), policyVersion, now)
  }

  /** A snapshot missing any domain raises an alert with zero confidence. */
  lemma MissingDomainAlerts(s: DerivedStateSnapshot, policyVersion: string, now: Timestamp)
    requires s.climate.None? || s.soilMoisture.None? || s.light.None?
    ensures Evaluate(s, policyVersion, now).outcome == Alert
    ensures Evaluate(s, policyVersion, now).confidence == 0.0
  {
  }

  /** A domain under the confidence floor or without samples raises an alert with zero confidence. */
  lemma UnusableDomainAlerts(s: DerivedStateSnapshot, policyVersion: string, now: Timestamp)
    requires
      || (s.climate.Some? && (s.climate.value.confidence < CONFIDENCE_FLOOR || s.climate.value.sampleCount <= 0))
      || (s.soilMoisture.Some? && (s.soilMoisture.value.confidence < CONFIDENCE_FLOOR || s.soilMoisture.value.sampleCount <= 0))
      || (s.light.Some? && (s.light.value.confidence < CONFIDENCE_FLOOR || s.light.value.sampleCount <= 0))
    ensures Evaluate(s, policyVersion, now).outcome == Alert
    ensures Evaluate(s, policyVersion, now).confidence == 0.0
  {
  }

  /** Alert is raised exactly on unusable snapshots; every other outcome carries the aggregate confidence. */
  lemma AlertExactlyWhenInvalid(s: DerivedStateSnapshot, policyVersion: string, now: Timestamp)
    ensures Evaluate(s, policyVersion, now).outcome == Alert <==> !IsSnapshotValid(s)
    ensures Evaluate(s, policyVersion, now).outcome != Alert ==>
      Evaluate(s, policyVersion, now).confidence == AggregateConfidence(s)
  {
  }

  /** On a usable snapshot, a level outside its range escalates with the weakest confidence. */
  lemma ViolationEscalates(s: DerivedStateSnapshot, policyVersion: string, now: Timestamp)
    requires IsSnapshotValid(s)
    requires
      || s.climate.value.temperatureLevel != TemperatureLevel.Ok
      || s.climate.value.humidityLevel != HumidityLevel.Ok
      || s.soilMoisture.value.level != SoilMoistureLevel.Ok
    ensures Evaluate(s, policyVersion, now).outcome == Escalate
    ensures Evaluate(s, policyVersion, now).confidence == MinOf(
      [s.climate.value.confidence, s.soilMoisture.value.confidence, s.light.value.confidence])
  {
    assert Confidences(s) == [s.climate.value.confidence, s.soilMoisture.value.confidence, s.light.value.confidence];
  }

  /** On a usable snapshot with every level ok, no action is taken, with the weakest confidence. */
  lemma AllLevelsOkNeedsNoAction(s: DerivedStateSnapshot, policyVersion: string, now: Timestamp)
    requires IsSnapshotValid(s)
    requires s.climate.value.temperatureLevel == TemperatureLevel.Ok
    requires s.climate.value.humidityLevel == HumidityLevel.Ok
    requires s.soilMoisture.value.level == SoilMoistureLevel.Ok
    ensures Evaluate(s, policyVersion, now).outcome == NoAction
    ensures Evaluate(s, policyVersion, now).confidence == MinOf(
      [s.climate.value.confidence, s.soilMoisture.value.confidence, s.light.value.confidence])
  {
    assert Confidences(s) == [s.climate.value.confidence, s.soilMoisture.value.confidence, s.light.value.confidence];
  }

  /** Escalate and no-action decisions always carry at least the floor confidence. */
  lemma ActionableDecisionIsConfident(s: DerivedStateSnapshot, policyVersion: string, now: Timestamp)
    requires Evaluate(s, policyVersion, now).outcome != Alert
    ensures Evaluate(s, policyVersion, now).confidence >= CONFIDENCE_FLOOR
  {
  }

  /**
   * The light state takes part only through its presence, confidence and sample count:
   * replacing it with one that agrees on those two fields never changes the decision.
   */
  lemma LightDetailsDoNotMatter(s: DerivedStateSnapshot, light: LightState, policyVersion: string, now: Timestamp)
    requires s.light.Some?
    requires light.confidence == s.light.value.confidence
    requires light.sampleCount == s.light.value.sampleCount
    ensures Evaluate(s.(light := Some(light)), policyVersion, now) == Evaluate(s, policyVersion, now)
  {
  }

  /** The decision log: an append-only list of saved decisions. */
  class DecisionRepository {
    var log: seq<SavedDecision>

    constructor ()
      ensures log == []
    {
      log := [];
    }

    /** Persists a decision together with the snapshot that produced it. */
    method Save(result: DecisionSchema, snapshot: DerivedStateSnapshot)
      modifies this
      ensures log == old(log) + [SavedDecision(result, snapshot)]
    {
      log := log + [SavedDecision(result, snapshot)];
    }
  }

  class DecisionService {
    const policies: PoliciesConfig
    const repo: DecisionRepository

    /** Uses the given repository, or a fresh, empty one when none is given. */
    constructor (policies: PoliciesConfig, repo: DecisionRepository?)
      ensures this.policies == policies
      ensures repo != null ==> this.repo == repo
      ensures repo == null ==> fresh(this.repo) && this.repo.log == []
    {
      this.policies := policies;
      if repo != null {
        this.repo := repo;
      } else {
        this.repo := new DecisionRepository();
      }
    }

    /**
     * Classifies the snapshot (validity gate, then violations, then no action), records the
     * decision with the snapshot as exactly one new log entry, and returns it.
     */
    method Decide(snapshot: DerivedStateSnapshot, now: Timestamp) returns (result: DecisionSchema)
      modifies repo
      ensures result == Evaluate(snapshot, policies.policyVersion, now)
      ensures repo.log == old(repo.log) + [SavedDecision(result, snapshot)]
    {
      if !IsSnapshotValid(snapshot) {
        result := DecisionSchema(Alert, 0.0, policies.policyVersion, now);
        repo.Save(result, snapshot);
        return;
      }

      if HasPolicyViolations(snapshot) {
        var confidence := AggregateConfidence(snapshot);
        result := DecisionSchema(Escalate, confidence, policies.policyVersion, now);
        repo.Save(result, snapshot);
        return;
      }

      var confidence := AggregateConfidence(snapshot);
      result := DecisionSchema(NoAction, confidence, policies.policyVersion, now);
      repo.Save(result, snapshot);
    }
  }
}
