/**
 * What every domain state service shares: the error it raises, the evidence-window and
 * confidence helpers it inherits, and the parsing of stored readings into typed readings.
 */
module StateBase {
  import opened Wrappers
  import opened Schemas

  /** A field of a stored, not yet validated, payload dictionary. */
  datatype PayloadValue = IntValue(i: int) | RealValue(r: real) | TextValue(s: string) | NullValue

  type PayloadDict = map<string, PayloadValue>

  /** A reading as stored, with its payload still an untyped dictionary. */
  datatype SensorReadingSchema =
    SensorReadingSchema(sensorId: string, sensorType: SensorType, payload: PayloadDict, created: Timestamp)

  /** The state service exception: no readings at all, or a payload that failed validation. */
  datatype StateError = NoReadings | InvalidPayload(sensorId: string)

  /**
   * The evidence-window builder and confidence scorer that the services call but that the
   * repository does not define. The builder sees the readings' creation times only; the
   * scorer sees the window and the policy's minimum sample count.
   */
  datatype EvidenceHelpers = EvidenceHelpers(
    window: seq<Timestamp> -> EvidenceWindow,
    confidenceScore: (EvidenceWindow, nat) -> real)

  /** The creation times of the readings, in order. */
  function CreationTimes<P>(readings: seq<ParsedSensorReading<P>>): (r: seq<Timestamp>)
    ensures |r| == |readings|
    ensures forall i :: 0 <= i < |r| ==> r[i] == readings[i].created
  {
    seq(|readings|, i requires 0 <= i < |readings| => readings[i].created)
  }

  /** True when every payload before index k passes validation and the one at k fails. */
  ghost predicate FirstInvalidAt<P>(observations: seq<SensorReadingSchema>, payloadSchema: PayloadDict -> Option<P>, k: int)
  {
    && 0 <= k < |observations|
    && payloadSchema(observations[k].payload).None?
    && forall j :: 0 <= j < k ==> payloadSchema(observations[j].payload).Some?
  }

  /**
   * Validates each stored payload with the payload schema and, in order, builds the typed
   * readings; the first payload that fails aborts the whole parse with no list returned.
   */
  method ParseObservations<P>(observations: seq<SensorReadingSchema>, payloadSchema: PayloadDict -> Option<P>)
    returns (r: Result<seq<ParsedSensorReading<P>>, StateError>)
    ensures r.Success? <==> forall i :: 0 <= i < |observations| ==> payloadSchema(observations[i].payload).Some?
    ensures r.Success? ==> |r.value| == |observations|
    ensures r.Success? ==> forall i :: 0 <= i < |observations| ==>
      var o := observations[i];
      r.value[i] == ParsedSensorReading(o.created, o.sensorType, o.sensorId, payloadSchema(o.payload).value)
    ensures r.Failure? ==> exists k :: FirstInvalidAt(observations, payloadSchema, k)
                                       && r.error == InvalidPayload(observations[k].sensorId)
  {
    var parsed: seq<ParsedSensorReading<P>> := [];
    for i := 0 to |observations|
      invariant |parsed| == i
      invariant forall j :: 0 <= j < i ==> payloadSchema(observations[j].payload).Some?
      invariant forall j :: 0 <= j < i ==>
        var o := observations[j];
        parsed[j] == ParsedSensorReading(o.created, o.sensorType, o.sensorId, payloadSchema(o.payload).value)
    {
      var observation := observations[i];
      var payload := payloadSchema(observation.payload);
      if payload.None? {
        assert FirstInvalidAt(observations, payloadSchema, i);
        return Failure(InvalidPayload(observation.sensorId));
      }
      parsed := parsed + [ParsedSensorReading(observation.created, observation.sensorType, observation.sensorId, payload.value)];
    }
    return Success(parsed);
  }
}
