/**
 * The climate state service: from a time-ordered list of climate readings, the level of the
 * latest temperature and humidity against the acceptable ranges, and the trend of each over
 * its own window.
 */
module ClimateService {
  import opened Wrappers
  import opened Schemas
  import opened Policies
  import opened StateBase
  import Trends

  function Temperatures(readings: seq<ClimateReading>): (r: seq<real>)
    ensures |r| == |readings|
    ensures forall i :: 0 <= i < |r| ==> r[i] == readings[i].payload.temp
  {
    seq(|readings|, i requires 0 <= i < |readings| => readings[i].payload.temp)
  }

  function Humidities(readings: seq<ClimateReading>): (r: seq<real>)
    ensures |r| == |readings|
    ensures forall i :: 0 <= i < |r| ==> r[i] == readings[i].payload.humidity
  {
    seq(|readings|, i requires 0 <= i < |readings| => readings[i].payload.humidity)
  }

  /** Below the range is too cold, above it too hot; both bounds are themselves acceptable. */
  function TemperatureLevelOf(policy: ClimatePolicy, valueC: real): (r: TemperatureLevel)
    ensures r == TemperatureLevel.TooCold <==> valueC < policy.temperatureMinC
    ensures r == TemperatureLevel.TooHot <==> policy.temperatureMinC <= valueC && valueC > policy.temperatureMaxC
    ensures r == TemperatureLevel.Ok <==> policy.temperatureMinC <= valueC <= policy.temperatureMaxC
  {
    if valueC < policy.temperatureMinC then TemperatureLevel.TooCold
    else if valueC > policy.temperatureMaxC then TemperatureLevel.TooHot
    else TemperatureLevel.Ok
  }

  /** Below the range is too dry, above it too humid; both bounds are themselves acceptable. */
  function HumidityLevelOf(policy: ClimatePolicy, valueRh: real): (r: HumidityLevel)
    ensures r == HumidityLevel.TooDry <==> valueRh < policy.humidityMinPercent
    ensures r == HumidityLevel.TooHumid <==> policy.humidityMinPercent <= valueRh && valueRh > policy.humidityMaxPercent
    ensures r == HumidityLevel.Ok <==> policy.humidityMinPercent <= valueRh <= policy.humidityMaxPercent
  {
    if valueRh < policy.humidityMinPercent then HumidityLevel.TooDry
    else if valueRh > policy.humidityMaxPercent then HumidityLevel.TooHumid
    else HumidityLevel.Ok
  }

  /**
   * Stable while there are fewer readings than the temperature window; otherwise the change
   * from the window's first to its last temperature, compared with the minimum delta
   * (heating is tested first).
   */
  function TemperatureTrendOf(policy: ClimatePolicy, readings: seq<ClimateReading>): (r: TemperatureTrend)
    requires |readings| > 0
    ensures |readings| < policy.temperatureMinSamples ==> r == TemperatureTrend.Stable
    ensures |readings| >= policy.temperatureMinSamples ==>
      var delta := readings[|readings| - 1].payload.temp
                   - readings[Trends.WindowStart(|readings|, policy.temperatureMinSamples)].payload.temp;
      && (r == TemperatureTrend.Heating <==> delta >= policy.temperatureMinDeltaC)
      && (r == TemperatureTrend.Cooling <==> delta < policy.temperatureMinDeltaC && delta <= -policy.temperatureMinDeltaC)
  {
    var n := policy.temperatureMinSamples;
    if |readings| < n then TemperatureTrend.Stable
    else
      var delta := Trends.Delta(Temperatures(Trends.LastN(readings, n)));
      if delta >= policy.temperatureMinDeltaC then TemperatureTrend.Heating
      else if delta <= -policy.temperatureMinDeltaC then TemperatureTrend.Cooling
      else TemperatureTrend.Stable
  }

  /**
   * Stable while there are fewer readings than the humidity window; otherwise the change
   * from the window's first to its last humidity, compared with the minimum delta
   * (humidifying is tested first).
   */
  function HumidityTrendOf(policy: ClimatePolicy, readings: seq<ClimateReading>): (r: HumidityTrend)
    requires |readings| > 0
    ensures |readings| < policy.humidityMinSamples ==> r == HumidityTrend.Stable
    ensures |readings| >= policy.humidityMinSamples ==>
      var delta := readings[|readings| - 1].payload.humidity
                   - readings[Trends.WindowStart(|readings|, policy.humidityMinSamples)].payload.humidity;
      && (r == HumidityTrend.Humidifying <==> delta >= policy.humidityMinDeltaPercent)
      && (r == HumidityTrend.Drying <==> delta < policy.humidityMinDeltaPercent && delta <= -policy.humidityMinDeltaPercent)
  {
    var n := policy.humidityMinSamples;
    if |readings| < n then HumidityTrend.Stable
    else
      var delta := Trends.Delta(Humidities(Trends.LastN(readings, n)));
      if delta >= policy.humidityMinDeltaPercent then HumidityTrend.Humidifying
      else if delta <= -policy.humidityMinDeltaPercent then HumidityTrend.Drying
      else HumidityTrend.Stable
  }

  /**
   * The climate state of a list of readings, or the state service error when there are none.
   * The window and the confidence are the helpers' results, the confidence scored against the
   * temperature window size; the readings and levels are those of the latest reading.
   */
  function DeriveState(policy: ClimatePolicy, evidence: EvidenceHelpers, readings: seq<ClimateReading>)
    : (r: Result<ClimateState, StateError>)
    ensures r.Failure? <==> readings == []
    ensures r.Failure? ==> r.error == NoReadings
    ensures r.Success? ==>
      var window := evidence.window(CreationTimes(readings));
      && r.value.windowStart == window.windowStart
      && r.value.windowEnd == window.windowEnd
      && r.value.sampleCount == window.sampleCount
      && r.value.confidence == evidence.confidenceScore(window, policy.temperatureMinSamples)
      && r.value.vpdKpa == None
    ensures r.Success? ==>
      var latest := readings[|readings| - 1].payload;
      && r.value.temperatureC == latest.temp
      && r.value.humidityRh == latest.humidity
      && r.value.temperatureLevel == TemperatureLevelOf(policy, latest.temp)
      && r.value.humidityLevel == HumidityLevelOf(policy, latest.humidity)
      && r.value.temperatureTrend == TemperatureTrendOf(policy, readings)
      && r.value.humidityTrend == HumidityTrendOf(policy, readings)
  {
    if readings == [] then Failure(NoReadings)
    else
      var window := evidence.window(CreationTimes(readings));
      var confidence := evidence.confidenceScore(window, policy.temperatureMinSamples);
      var latest := readings[|readings| - 1].payload;
      Success(ClimateState(
        windowStart := window.windowStart,
        windowEnd := window.windowEnd,
        sampleCount := window.sampleCount,
        confidence := confidence,
        temperatureC := latest.temp,
        humidityRh := latest.humidity,
        vpdKpa := None,
        temperatureLevel := TemperatureLevelOf(policy, latest.temp),
        temperatureTrend := TemperatureTrendOf(policy, readings),
        humidityLevel := HumidityLevelOf(policy, latest.humidity),
        humidityTrend := HumidityTrendOf(policy, readings)))
  }

  /**
   * Two non-empty reading lists that end in the same payload give the same temperature,
   * humidity and levels, whatever came before.
   */
  lemma LatestReadingDecidesLevels(policy: ClimatePolicy, evidence: EvidenceHelpers, a: seq<ClimateReading>, b: seq<ClimateReading>)
    requires a != [] && b != []
    requires a[|a| - 1].payload == b[|b| - 1].payload
    ensures DeriveState(policy, evidence, a).Success? && DeriveState(policy, evidence, b).Success?
    ensures var sa, sb := DeriveState(policy, evidence, a).value, DeriveState(policy, evidence, b).value;
      && sa.temperatureC == sb.temperatureC
      && sa.humidityRh == sb.humidityRh
      && sa.temperatureLevel == sb.temperatureLevel
      && sa.humidityLevel == sb.humidityLevel
  {
  }

  /**
   * Once there are at least as many readings as the (non-empty) temperature window, readings
   * before the window cannot change the temperature trend.
   */
  lemma EarlierReadingsDoNotChangeTemperatureTrend(policy: ClimatePolicy, earlier: seq<ClimateReading>, readings: seq<ClimateReading>)
    requires 0 < policy.temperatureMinSamples <= |readings|
    ensures TemperatureTrendOf(policy, earlier + readings) == TemperatureTrendOf(policy, readings)
  {
    var all, n := earlier + readings, policy.temperatureMinSamples;
    var start, startAll := Trends.WindowStart(|readings|, n), Trends.WindowStart(|all|, n);
    assert all[|all| - 1] == readings[|readings| - 1];
    assert all[startAll] == readings[start];
  }

  /**
   * Once there are at least as many readings as the (non-empty) humidity window, readings
   * before the window cannot change the humidity trend.
   */
  lemma EarlierReadingsDoNotChangeHumidityTrend(policy: ClimatePolicy, earlier: seq<ClimateReading>, readings: seq<ClimateReading>)
    requires 0 < policy.humidityMinSamples <= |readings|
    ensures HumidityTrendOf(policy, earlier + readings) == HumidityTrendOf(policy, readings)
  {
    var all, n := earlier + readings, policy.humidityMinSamples;
    var start, startAll := Trends.WindowStart(|readings|, n), Trends.WindowStart(|all|, n);
    assert all[|all| - 1] == readings[|readings| - 1];
    assert all[startAll] == readings[start];
  }
}
