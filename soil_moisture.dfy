/**
 * The soil-moisture state service: raw ADC readings of an inverted sensor are normalised to a
 * moisture fraction in [0, 1]; the mean over all readings gives the level, the change across
 * the trend window gives the trend.
 */
module SoilMoistureService {
  import opened Wrappers
  import opened Schemas
  import opened Policies
  import opened StateBase
  import Trends

  /** The two calibration points differ, so that normalisation never divides by zero. */
  predicate ValidCalibration(policy: SoilMoisturePolicy)
  {
    policy.adcDry != policy.adcWet
  }

  function Clamp01(x: real): (r: real)
    ensures 0.0 <= r <= 1.0
    ensures 0.0 <= x <= 1.0 ==> r == x
  {
    if 1.0 < x then 1.0 else if x < 0.0 then 0.0 else x
  }

  /**
   * The moisture fraction of one raw reading: 0 at the dry calibration point, 1 at the wet
   * one, linear in between and clamped to [0, 1] outside.
   */
  function Normalize(policy: SoilMoisturePolicy, rawAdc: int): (r: real)
    requires ValidCalibration(policy)
    ensures 0.0 <= r <= 1.0
    ensures rawAdc == policy.adcDry ==> r == 0.0
    ensures rawAdc == policy.adcWet ==> r == 1.0
  {
    var dry, wet := policy.adcDry, policy.adcWet;
    Clamp01((dry - rawAdc) as real / (dry - wet) as real)
  }

  /** With the dry point above the wet one, a higher reading never means more moisture. */
  lemma NormalizeIsNonIncreasing(policy: SoilMoisturePolicy, lower: int, higher: int)
    requires policy.adcDry > policy.adcWet
    requires lower <= higher
    ensures Normalize(policy, higher) <= Normalize(policy, lower)
  {
    var span := (policy.adcDry - policy.adcWet) as real;
    var a, b := (policy.adcDry - lower) as real, (policy.adcDry - higher) as real;
    assert a / span - b / span == (a - b) / span;
  }

  /** The normalised moisture of each reading, in order. */
  function Moistures(policy: SoilMoisturePolicy, readings: seq<SoilMoistureReading>): (r: seq<real>)
    requires ValidCalibration(policy)
    ensures |r| == |readings|
    ensures forall i :: 0 <= i < |r| ==> r[i] == Normalize(policy, readings[i].payload.rawAdc)
  {
    seq(|readings|, i requires 0 <= i < |readings| => Normalize(policy, readings[i].payload.rawAdc))
  }

  function Sum(values: seq<real>): real
  {
    if values == [] then 0.0 else values[0] + Sum(values[1..])
  }

  /** The mean normalised moisture over every reading of the window. */
  function AvgMoisture(policy: SoilMoisturePolicy, readings: seq<SoilMoistureReading>): (r: real)
    requires ValidCalibration(policy)
    requires readings != []
    ensures 0.0 <= r <= 1.0
  {
    var values := Moistures(policy, readings);
    SumOfFractionsIsBounded(values);
    Sum(values) / |values| as real
  }

  lemma {:induction false} SumOfFractionsIsBounded(values: seq<real>)
    requires forall i :: 0 <= i < |values| ==> 0.0 <= values[i] <= 1.0
    ensures 0.0 <= Sum(values) <= |values| as real
  {
    if values != [] {
      SumOfFractionsIsBounded(values[1..]);
    }
  }

  lemma {:induction false} SumOfConcatenation(a: seq<real>, b: seq<real>)
    ensures Sum(a + b) == Sum(a) + Sum(b)
  {
    if a == [] {
      assert a + b == b;
    } else {
      assert (a + b)[1..] == a[1..] + b;
      SumOfConcatenation(a[1..], b);
    }
  }

  /** Removing the first element of one sequence and a matching element of a permutation of it leaves permutations. */
  lemma RemoveMatchingElement<T>(a: seq<T>, b: seq<T>, j: int)
    requires multiset(a) == multiset(b)
    requires a != [] && 0 <= j < |b| && b[j] == a[0]
    ensures multiset(a[1..]) == multiset(b[..j] + b[j + 1..])
  {
    assert a == [a[0]] + a[1..];
    assert b == b[..j] + [b[j]] + b[j + 1..];
    assert multiset(a[1..]) == multiset(a) - multiset{a[0]};
    assert multiset(b[..j] + b[j + 1..]) == multiset(b) - multiset{b[j]};
  }

  lemma MoisturesOfConcatenation(policy: SoilMoisturePolicy, a: seq<SoilMoistureReading>, b: seq<SoilMoistureReading>)
    requires ValidCalibration(policy)
    ensures Moistures(policy, a + b) == Moistures(policy, a) + Moistures(policy, b)
  {
  }

  /** The moisture sum splits at any reading into the reading's moisture and the sum of the rest. */
  lemma SumOfMoisturesWithout(policy: SoilMoisturePolicy, b: seq<SoilMoistureReading>, j: int)
    requires ValidCalibration(policy)
    requires 0 <= j < |b|
    ensures Sum(Moistures(policy, b))
         == Normalize(policy, b[j].payload.rawAdc) + Sum(Moistures(policy, b[..j] + b[j + 1..]))
  {
    var before, after := b[..j], b[j + 1..];
    var mid, rest := Moistures(policy, before), Moistures(policy, [b[j]] + after);
    assert b == before + ([b[j]] + after);
    MoisturesOfConcatenation(policy, before, [b[j]] + after);
    MoisturesOfConcatenation(policy, [b[j]], after);
    MoisturesOfConcatenation(policy, before, after);
    SumOfConcatenation(mid, rest);
    SumOfConcatenation(mid, Moistures(policy, after));
    assert Sum(rest) == Normalize(policy, b[j].payload.rawAdc) + Sum(Moistures(policy, after)) by {
      assert rest[1..] == Moistures(policy, after);
    }
  }

  /** Reordering the readings cannot change the sum of their moistures. */
  lemma {:induction false} SumOfMoisturesIsOrderFree(policy: SoilMoisturePolicy, a: seq<SoilMoistureReading>, b: seq<SoilMoistureReading>)
    requires ValidCalibration(policy)
    requires multiset(a) == multiset(b)
    ensures Sum(Moistures(policy, a)) == Sum(Moistures(policy, b))
    decreases |a|
  {
    if a == [] {
      assert |multiset(b)| == 0;
    } else {
      assert a[0] in multiset(b);
      var j :| 0 <= j < |b| && b[j] == a[0];
      RemoveMatchingElement(a, b, j);
      SumOfMoisturesIsOrderFree(policy, a[1..], b[..j] + b[j + 1..]);
      SumOfMoisturesWithout(policy, a, 0);
      assert a[..0] + a[1..] == a[1..];
      SumOfMoisturesWithout(policy, b, j);
    }
  }

  /** The average moisture is the same for any ordering of the same readings. */
  lemma AvgMoistureIsOrderFree(policy: SoilMoisturePolicy, a: seq<SoilMoistureReading>, b: seq<SoilMoistureReading>)
    requires ValidCalibration(policy)
    requires a != [] && multiset(a) == multiset(b)
    ensures b != []
    ensures AvgMoisture(policy, a) == AvgMoisture(policy, b)
  {
    assert |a| == |multiset(a)| == |multiset(b)| == |b|;
    SumOfMoisturesIsOrderFree(policy, a, b);
  }

  /** Dry at or below the dry threshold (tested first), wet at or above the wet threshold, else ok. */
  function LevelOf(policy: SoilMoisturePolicy, avgMoisture: real): (r: SoilMoistureLevel)
    ensures r == SoilMoistureLevel.Dry <==> avgMoisture <= policy.dryThreshold
    ensures r == SoilMoistureLevel.Wet <==> policy.dryThreshold < avgMoisture && policy.wetThreshold <= avgMoisture
    ensures r == SoilMoistureLevel.Ok <==> policy.dryThreshold < avgMoisture < policy.wetThreshold
  {
    if avgMoisture <= policy.dryThreshold then SoilMoistureLevel.Dry
    else if avgMoisture >= policy.wetThreshold then SoilMoistureLevel.Wet
    else SoilMoistureLevel.Ok
  }

  /**
   * Stable while there are fewer readings than the lookback window; otherwise the change of
   * normalised moisture from the window's first to its last reading, compared with the
   * minimum delta (wetting is tested first).
   */
  function TrendOf(policy: SoilMoisturePolicy, readings: seq<SoilMoistureReading>): (r: SoilMoistureTrend)
    requires ValidCalibration(policy)
    requires readings != []
    ensures |readings| < policy.lookbackSamples ==> r == SoilMoistureTrend.Stable
    ensures |readings| >= policy.lookbackSamples ==>
      var delta := Normalize(policy, readings[|readings| - 1].payload.rawAdc)
                   - Normalize(policy, readings[Trends.WindowStart(|readings|, policy.lookbackSamples)].payload.rawAdc);
      && (r == SoilMoistureTrend.Wetting <==> delta >= policy.trendMinDelta)
      && (r == SoilMoistureTrend.Drying <==> delta < policy.trendMinDelta && delta <= -policy.trendMinDelta)
  {
    var n := policy.lookbackSamples;
    if |readings| < n then SoilMoistureTrend.Stable
    else
      var delta := Trends.Delta(Moistures(policy, Trends.LastN(readings, n)));
      if delta >= policy.trendMinDelta then SoilMoistureTrend.Wetting
      else if delta <= -policy.trendMinDelta then SoilMoistureTrend.Drying
      else SoilMoistureTrend.Stable
  }

  /**
   * The soil-moisture state of a list of readings, or the state service error when there are
   * none. The window and the confidence are the helpers' results, the confidence scored
   * against the level's minimum sample count.
   */
  function DeriveState(policy: SoilMoisturePolicy, evidence: EvidenceHelpers, readings: seq<SoilMoistureReading>)
    : (r: Result<SoilMoistureState, StateError>)
    requires readings != [] ==> ValidCalibration(policy)
    ensures r.Failure? <==> readings == []
    ensures r.Failure? ==> r.error == NoReadings
    ensures r.Success? ==>
      var window := evidence.window(CreationTimes(readings));
      && r.value.windowStart == window.windowStart
      && r.value.windowEnd == window.windowEnd
      && r.value.sampleCount == window.sampleCount
      && r.value.confidence == evidence.confidenceScore(window, policy.levelMinSamples)
    ensures r.Success? ==>
      && 0.0 <= r.value.avgMoisture <= 1.0
      && r.value.avgMoisture == AvgMoisture(policy, readings)
      && r.value.level == LevelOf(policy, r.value.avgMoisture)
      && r.value.trend == TrendOf(policy, readings)
  {
    if readings == [] then Failure(NoReadings)
    else
      var window := evidence.window(CreationTimes(readings));
      var confidence := evidence.confidenceScore(window, policy.levelMinSamples);
      var avgMoisture := AvgMoisture(policy, readings);
      Success(SoilMoistureState(
        windowStart := window.windowStart,
        windowEnd := window.windowEnd,
        sampleCount := window.sampleCount,
        confidence := confidence,
        avgMoisture := avgMoisture,
        level := LevelOf(policy, avgMoisture),
        trend := TrendOf(policy, readings)))
  }

  /** Reordering the readings leaves the average and hence the level unchanged. */
  lemma LevelIsOrderFree(policy: SoilMoisturePolicy, evidence: EvidenceHelpers, a: seq<SoilMoistureReading>, b: seq<SoilMoistureReading>)
    requires ValidCalibration(policy)
    requires a != [] && multiset(a) == multiset(b)
    ensures DeriveState(policy, evidence, a).Success? && DeriveState(policy, evidence, b).Success?
    ensures DeriveState(policy, evidence, a).value.avgMoisture == DeriveState(policy, evidence, b).value.avgMoisture
    ensures DeriveState(policy, evidence, a).value.level == DeriveState(policy, evidence, b).value.level
  {
    AvgMoistureIsOrderFree(policy, a, b);
  }
}
