/**
 * The policy configuration, reduced to the fields that the state services and the
 * decision engine read.
 */
module Policies {

  /** Acceptable ranges, trend windows and minimum deltas for temperature and humidity. */
  datatype ClimatePolicy = ClimatePolicy(
    temperatureMinC: real,
    temperatureMaxC: real,
    temperatureMinSamples: nat,
    humidityMinPercent: real,
    humidityMaxPercent: real,
    humidityMinSamples: nat,
    temperatureMinDeltaC: real,
    humidityMinDeltaPercent: real)

  /** ADC calibration (the sensor is inverted: dry reads higher), level thresholds and trend window. */
  datatype SoilMoisturePolicy = SoilMoisturePolicy(
    adcDry: int,
    adcWet: int,
    levelMinSamples: nat,
    dryThreshold: real,
    wetThreshold: real,
    lookbackSamples: nat,
    trendMinDelta: real)

  datatype PoliciesConfig = PoliciesConfig(
    policyVersion: string,
    climate: ClimatePolicy,
    soilMoisture: SoilMoisturePolicy)
}
