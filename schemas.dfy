/**
 * Records and enumerations shared by the state services and the decision engine:
 * sensor readings, the derived state of each domain, and the snapshot that bundles them.
 */
module Schemas {
  import opened Wrappers

  /** A `datetime`, as seconds on a fixed clock. */
  type Timestamp = int

  datatype SensorType = Climate | SoilMoisture | Light

  datatype TemperatureLevel = TooCold | Ok | TooHot
  datatype TemperatureTrend = Cooling | Stable | Heating
  datatype HumidityLevel = TooDry | Ok | TooHumid
  datatype HumidityTrend = Drying | Stable | Humidifying
  datatype SoilMoistureLevel = Dry | Ok | Wet
  datatype SoilMoistureTrend = Drying | Stable | Wetting

  /** Validated payloads, one per sensor type. */
  datatype ClimatePayload = ClimatePayload(temp: real, humidity: real)
  datatype SoilMoisturePayload = SoilMoisturePayload(rawAdc: int)
  datatype LightPayload = LightPayload(rawAdc: int)

  /** A reading whose payload has passed validation. */
  datatype ParsedSensorReading<P> =
    ParsedSensorReading(created: Timestamp, sensorType: SensorType, sensorId: string, payload: P)

  type ClimateReading = ParsedSensorReading<ClimatePayload>
  type SoilMoistureReading = ParsedSensorReading<SoilMoisturePayload>

  /** The span and size of the evidence behind a derived state. */
  datatype EvidenceWindow = EvidenceWindow(windowStart: Timestamp, windowEnd: Timestamp, sampleCount: int)

  datatype ClimateState = ClimateState(
    windowStart: Timestamp,
    windowEnd: Timestamp,
    sampleCount: int,
    confidence: real,
    temperatureC: real,
    humidityRh: real,
    vpdKpa: Option<real>,
    temperatureLevel: TemperatureLevel,
    temperatureTrend: TemperatureTrend,
    humidityLevel: HumidityLevel,
    humidityTrend: HumidityTrend)

  datatype SoilMoistureState = SoilMoistureState(
    windowStart: Timestamp,
    windowEnd: Timestamp,
    sampleCount: int,
    confidence: real,
    avgMoisture: real,
    level: SoilMoistureLevel,
    trend: SoilMoistureTrend)

  datatype LightState = LightState(
    windowStart: Timestamp,
    windowEnd: Timestamp,
    sampleCount: int,
    confidence: real,
    intensity: real,
    durationSeconds: int,
    isLightOn: bool)

  /** One point-in-time bundle of the three domain states; a domain without readings is absent. */
  datatype DerivedStateSnapshot = DerivedStateSnapshot(
    created: Timestamp,
    soilMoisture: Option<SoilMoistureState>,
    climate: Option<ClimateState>,
    light: Option<LightState>)
}
