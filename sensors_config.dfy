/**
 * Per-domain sensor configuration. Every record here is plain data except the evidence
 * configuration, whose lookback must be given either in seconds or in samples.
 */
module SensorsConfigSchemas {
  import opened Wrappers

  datatype SensorRef = SensorRef(id: string, model: Option<string>)
  datatype SamplingConfig = SamplingConfig(intervalSeconds: int)
  datatype EvaluationConfig = EvaluationConfig(intervalSeconds: int)
  datatype EvidenceConfig = EvidenceConfig(lookbackSeconds: Option<int>, lookbackSamples: Option<int>)

  datatype SensorDomainConfig = SensorDomainConfig(
    sensors: seq<SensorRef>,
    sampling: SamplingConfig,
    evaluation: EvaluationConfig,
    evidence: EvidenceConfig)

  datatype SensorsConfig = SensorsConfig(
    climate: SensorDomainConfig,
    soilMoisture: SensorDomainConfig,
    light: SensorDomainConfig)

  /** The two ValueErrors that the mode check raises. */
  datatype EvidenceModeError = NeitherLookbackDefined | BothLookbacksDefined

  /**
   * Accepts an evidence configuration exactly when one of the two lookback modes is set;
   * a missing mode is reported before a doubly defined one can be.
   */
  function ValidateMode(config: EvidenceConfig): (r: Outcome<EvidenceModeError>)
    ensures r.Pass? <==> (config.lookbackSeconds.Some? != config.lookbackSamples.Some?)
    ensures r == Fail(NeitherLookbackDefined) <==> config.lookbackSeconds.None? && config.lookbackSamples.None?
    ensures r == Fail(BothLookbacksDefined) <==> config.lookbackSeconds.Some? && config.lookbackSamples.Some?
  {
    if config.lookbackSeconds.None? && config.lookbackSamples.None? then
      Fail(NeitherLookbackDefined)
    else if config.lookbackSeconds.Some? && config.lookbackSamples.Some? then
      Fail(BothLookbacksDefined)
    else
      Pass
  }
}
