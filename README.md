# Garden state derivation and decision pipeline, in Dafny

This project models the core of a garden-monitoring system. Domain state services turn
time-ordered sensor readings into derived states with levels and trends. A decision engine then
classifies a snapshot of those states as alert, escalate or no action.

- `wrappers.dfy`, module `Wrappers`: `Option`, `Result` and `Outcome`. They stand for the
  exceptions that the services raise.
- `schemas.dfy`, module `Schemas`: readings, payloads, evidence windows, the climate,
  soil-moisture and light states, the snapshot, and the level and trend enumerations.
- `policies.dfy`, module `Policies`: the policy fields that the services read.
- `sensors_config.dfy`, module `SensorsConfigSchemas`: the sensor configuration records and the
  evidence-mode check. Exactly one of `lookback_seconds` and `lookback_samples` must be set.
- `state_base.dfy`, module `StateBase`: the state service error and the evidence helpers. It
  also holds `ParseObservations`, a loop that validates stored payloads in order and stops at
  the first invalid one.
- `trends.dfy`, module `Trends`: the `values[-N:]` window and the delta from its first to its
  last value. A window of size 0 is the whole list, as in Python.
- `climate.dfy`, module `ClimateService`: temperature and humidity levels of the latest reading,
  with both range bounds acceptable. Each trend is computed over its own window.
- `soil_moisture.dfy`, module `SoilMoistureService`: inverted-ADC normalisation clamped to
  [0, 1], the mean over all readings, the threshold level with dry tested first, and the trend.
- `decision.dfy`, module `Decision`: the validity gate, the violation check and the
  weakest-link confidence. It also holds the append-only decision log, a class whose `log`
  sequence `Save` extends, and the `DecisionService` class, whose `Decide` appends exactly one
  entry per call.

Readings, thresholds and confidences are mathematical reals. Timestamps are integers. Clock
time (`datetime.now()` for a decision's `created` field) is the `now` parameter of `Decide`.

Two parts of the system are not modelled in full:
- The light state service is entirely commented out (`garden/state/services/light.py`), so no
  on/off state machine is modelled. The light state is only a record in the snapshot, with the
  code's `duration_seconds` field.
- The services call `evidence_window` and `confidence_score`, but the repository defines
  neither. The model takes them as function-valued parameters (`StateBase.EvidenceHelpers`) and
  copies their results into the state. The window builder sees only the readings' `created`
  times.

The climate confidence is scored against the temperature window size
(`temperature.hysteresis.min_samples`) for both climate quantities, as the code does.

## Model

| member | source | states |
|---|---|---|
| `SensorsConfigSchemas.ValidateMode` | garden/config/sensors/schemas.py:22-27 | passes iff exactly one of lookback seconds / samples is set; "neither" error iff both unset, "both" error iff both set |
| `StateBase.ParseObservations` | garden/state/services/base.py:17-39 | succeeds iff every payload validates; then output has the input's length and element i keeps input i's created, sensor type and sensor id with its validated payload; otherwise fails naming the sensor id of the first invalid payload |
| `ClimateService.TemperatureLevelOf` | garden/state/services/climate.py:55-61 | too cold iff below min; too hot iff not below min and above max; ok iff within [min, max], bounds included |
| `ClimateService.HumidityLevelOf` | garden/state/services/climate.py:63-69 | too dry iff below min; too humid iff not below min and above max; ok iff within [min, max], bounds included |
| `ClimateService.TemperatureTrendOf` | garden/state/services/climate.py:71-87 | stable with fewer readings than the window; otherwise heating iff last-minus-window-first temperature >= min delta, cooling iff not heating and delta <= -min delta |
| `ClimateService.HumidityTrendOf` | garden/state/services/climate.py:89-105 | stable with fewer readings than the window; otherwise humidifying iff delta >= min delta, drying iff not humidifying and delta <= -min delta |
| `ClimateService.DeriveState` | garden/state/services/climate.py:18-53 | fails with the no-readings error iff the list is empty; otherwise window fields and confidence are the helpers' results (scored with the temperature window size), vpd is absent, readings and levels come from the latest reading, trends from their own windows |
| `ClimateService.LatestReadingDecidesLevels` | garden/state/services/climate.py:35-45 | two non-empty lists ending in the same payload give equal temperature, humidity and both levels |
| `ClimateService.EarlierReadingsDoNotChangeTemperatureTrend` | garden/state/services/climate.py:75-80 | with 0 < window <= number of readings, prepending readings never changes the temperature trend |
| `ClimateService.EarlierReadingsDoNotChangeHumidityTrend` | garden/state/services/climate.py:93-98 | with 0 < window <= number of readings, prepending readings never changes the humidity trend |
| `SoilMoistureService.Normalize` | garden/state/services/soil_moisture.py:42-53 | for distinct calibration points the result lies in [0, 1], is 0 at the dry point and 1 at the wet point |
| `SoilMoistureService.NormalizeIsNonIncreasing` | garden/state/services/soil_moisture.py:51-53 | with dry above wet, a higher raw reading never gives a higher moisture |
| `SoilMoistureService.AvgMoisture` | garden/state/services/soil_moisture.py:55-63 | the mean normalised moisture of a non-empty list lies in [0, 1] |
| `SoilMoistureService.SumOfMoisturesIsOrderFree` | garden/state/services/soil_moisture.py:59-63 | any permutation of the readings has the same moisture sum |
| `SoilMoistureService.AvgMoistureIsOrderFree` | garden/state/services/soil_moisture.py:55-63 | any permutation of a non-empty list has the same average moisture |
| `SoilMoistureService.LevelOf` | garden/state/services/soil_moisture.py:65-74 | dry iff avg <= dry threshold; wet iff above dry threshold and >= wet threshold; ok iff strictly between |
| `SoilMoistureService.TrendOf` | garden/state/services/soil_moisture.py:76-99 | stable with fewer readings than the lookback; otherwise wetting iff normalised last-minus-window-first >= min delta, drying iff not wetting and delta <= -min delta |
| `SoilMoistureService.DeriveState` | garden/state/services/soil_moisture.py:13-40 | fails with the no-readings error iff the list is empty; otherwise window fields and confidence are the helpers' results (scored with the level's min samples), avg moisture in [0, 1] is the mean, level and trend follow from it |
| `SoilMoistureService.LevelIsOrderFree` | garden/state/services/soil_moisture.py:30-31 | permuting the readings leaves the derived average moisture and level unchanged |
| `Decision.IsSnapshotValid` | garden/decision/service.py:76-105 | valid iff all three domains are present, each confidence >= 0.5 and each sample count > 0 |
| `Decision.HasPolicyViolations` | garden/decision/service.py:107-122 | violation iff a present climate state has temperature or humidity level not ok, or a present soil state has level not ok; light never counts |
| `Decision.MinOf` | garden/decision/service.py:137 | the minimum is an element of the list and no larger than any element |
| `Decision.AggregateConfidence` | garden/decision/service.py:124-137 | no larger than every present domain's confidence and equal to one of them; 0 when none is present |
| `Decision.Evaluate` | garden/decision/service.py:40-74 | every decision carries the given policy version and creation time |
| `Decision.MissingDomainAlerts` | garden/decision/service.py:82-87 | a snapshot missing climate, soil moisture or light gives alert with confidence 0 |
| `Decision.UnusableDomainAlerts` | garden/decision/service.py:89-103 | a present domain with confidence below 0.5 or sample count <= 0 gives alert with confidence 0 |
| `Decision.AlertExactlyWhenInvalid` | garden/decision/service.py:45-74 | alert iff the snapshot is invalid; escalate and no-action carry the aggregate confidence |
| `Decision.ViolationEscalates` | garden/decision/service.py:55-64 | a valid snapshot with any level not ok escalates, with the minimum of the three confidences |
| `Decision.AllLevelsOkNeedsNoAction` | garden/decision/service.py:66-74 | a valid snapshot with all three levels ok gives no action, with the minimum of the three confidences |
| `Decision.ActionableDecisionIsConfident` | garden/decision/service.py:90-95 | every escalate or no-action decision has confidence >= 0.5 |
| `Decision.LightDetailsDoNotMatter` | garden/decision/service.py:107-122 | replacing the light state with one of equal confidence and sample count never changes the decision |
| `Decision.DecisionRepository.Save` | garden/decision/repository.py:12-26 | appends exactly one entry, the decision with its snapshot, to the log |
| `Decision.DecisionService.constructor` | garden/decision/service.py:32-38 | keeps the given policies and repository, or uses a fresh empty repository when none is given |
| `Decision.DecisionService.Decide` | garden/decision/service.py:40-74 | returns the decision that `Evaluate` specifies for the policies' version and appends exactly that decision with the same snapshot to the log |

## Left out

- The light state service and its on/off hysteresis: `garden/state/services/light.py` is commented out, so there is nothing to model.
- The state orchestrator and `PreviousStates`: `garden/state/services/state.py` holds only a docstring.
- `evidence_window` and `confidence_score`: the repository calls them (garden/state/services/climate.py:28-33, soil_moisture.py:23-28) but defines neither. They are parameters, and only the flow of their results into the state is modelled.
- Pydantic payload validation: a foreign library. It is the parameter `payloadSchema`, a partial map from a payload dictionary to a typed payload.
- Persistence: the repository is an in-memory append-only log. The database write, `RepositoryError` on a storage fault, and the JSON and enum-string conversion of the log row are not modelled.
- Enum string values (`"no_action"`, `"too_cold"`, ...): they matter only to persistence.
- Logging, the LLM client, configuration loaders, the CLI and database setup: I/O and wiring.
- Floating point: values are reals, so rounding and NaN are not modelled.
- Policy window sizes (`min_samples`, `lookback_samples`) are natural numbers. The policy schemas for climate and soil moisture are not part of this model. A negative size, for which `values[-N:]` would drop a prefix, is not modelled.
- The light policy and the rest of the policy file: no core function reads them. `PoliciesConfig` in garden/config/policies/schemas.py:26-30 holds only `light` and no `policy_version`, although garden/decision/service.py:50 reads it. The model's `PoliciesConfig` holds the version and the climate and soil-moisture fields that the core reads.
- `ClimateService.TemperatureTrendOf`, `ClimateService.HumidityTrendOf`, `SoilMoistureService.TrendOf`: they require a non-empty list. The only caller, the service's state derivation, rejects an empty list first. On an empty list with a window of 0, the Python helper would fail with an index error that is not modelled.
- `SoilMoistureService.Normalize`: it requires distinct dry and wet calibration points, because equal points divide by zero in the source. `SoilMoistureService.DeriveState` requires them only for a non-empty list, since an empty list is rejected before any division.
