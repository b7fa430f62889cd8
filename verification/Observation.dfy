// Derived telemetry and the snapshot the analyzer reads
// (internal/observation/observation.go).
module Observation {
  import opened Values

  datatype RequestRates = RequestRates(requestRate: Metric, successful: Metric, errorRate: Metric)

  function ValidateRate(m: Metric): Metric {
    if !m.isValid then m
    else if !m.isFresh then m.(isValid := false)
    else if m.observedAt == ZERO_TIME then INVALID_METRIC
    else if !FiniteNonnegative(m.value) then INVALID_METRIC
    else m
  }

  function DeriveRequestRates(requestRate: Metric, errorRequestRate: Metric): RequestRates {
    var requests := ValidateRate(requestRate);
    var errors := ValidateRate(errorRequestRate);
    if !Usable(requests) || !Usable(errors) then RequestRates(requests, INVALID_METRIC, INVALID_METRIC)
    else
      var observedAt := if errors.observedAt < requests.observedAt then errors.observedAt else requests.observedAt;
      if errors.value.v > requests.value.v then RequestRates(requests, INVALID_METRIC, INVALID_METRIC)
      else
        var successful := Metric(Finite(requests.value.v - errors.value.v), observedAt, true, true);
        if requests.value.v == 0.0 then RequestRates(requests, successful, INVALID_METRIC)
        else RequestRates(requests, successful,
          Metric(Finite(errors.value.v / requests.value.v), observedAt, true, true))
  }

  lemma ValidationKeepsUsable(m: Metric)
    ensures Usable(ValidateRate(m)) <==> Usable(m)
    ensures Usable(m) ==> ValidateRate(m) == m
  {
  }

  lemma RatioOfRates(requests: real, errors: real, ratio: real)
    requires 0.0 <= errors <= requests && requests > 0.0 && ratio == errors / requests
    ensures 0.0 <= ratio <= 1.0 && requests * ratio == errors && requests - errors == requests * (1.0 - ratio)
  {
  }

  // When the derived rates are usable, and what they then satisfy: successes and
  // errors add up to the requests, the error ratio is a ratio, no traffic is not
  // read as no errors, and the older timestamp wins.
  lemma DerivedRates(requestRate: Metric, errorRequestRate: Metric)
    ensures var rates := DeriveRequestRates(requestRate, errorRequestRate);
      && (Usable(rates.requestRate) <==> Usable(requestRate))
      && (Usable(rates.successful) <==>
          Usable(requestRate) && Usable(errorRequestRate) && errorRequestRate.value.v <= requestRate.value.v)
      && (Usable(rates.errorRate) <==> Usable(rates.successful) && requestRate.value.v > 0.0)
      && (Usable(rates.successful) ==>
          && rates.successful.value.v + errorRequestRate.value.v == requestRate.value.v
          && rates.successful.observedAt in {requestRate.observedAt, errorRequestRate.observedAt}
          && rates.successful.observedAt <= requestRate.observedAt
          && rates.successful.observedAt <= errorRequestRate.observedAt)
      && (Usable(rates.errorRate) ==>
          && rates.errorRate.observedAt == rates.successful.observedAt
          && 0.0 <= rates.errorRate.value.v <= 1.0
          && rates.successful.value.v == requestRate.value.v * (1.0 - rates.errorRate.value.v))
  {
    ValidationKeepsUsable(requestRate);
    ValidationKeepsUsable(errorRequestRate);
    var rates := DeriveRequestRates(requestRate, errorRequestRate);
    if Usable(requestRate) && Usable(errorRequestRate) && errorRequestRate.value.v <= requestRate.value.v
      && requestRate.value.v > 0.0 {
      RatioOfRates(requestRate.value.v, errorRequestRate.value.v, rates.errorRate.value.v);
    }
  }

  // The number of replicas that serve traffic, if the observation is credible.
  function EffectiveReplicaCount(metric: Metric, readyReplicas: int32): Option<int32> {
    var m := ValidateRate(metric);
    if !Usable(m) then None
    else if m.value.v.Floor as real != m.value.v || m.value.v > MAX_INT32 as real then None
    else
      var count: int32 := m.value.v.Floor;
      if count > readyReplicas then None else Some(count)
  }

  // It is accepted exactly when it is a usable whole number of Ready replicas.
  lemma EffectiveCountIff(metric: Metric, readyReplicas: int32, count: int32)
    ensures EffectiveReplicaCount(metric, readyReplicas) == Some(count) <==>
      Usable(metric) && metric.value.v == count as real && 0 <= count <= readyReplicas
  {
    ValidationKeepsUsable(metric);
    if Usable(metric) && metric.value.v == count as real {
      assert metric.value.v.Floor == count;
    }
  }

  datatype TargetObservation = TargetObservation(
    currentReplicas: int32,
    readyReplicas: int32,
    p95Latency: Metric,
    aggregateSlotOccupancy: Metric,
    hottestReplicaOccupancy: Metric,
    effectiveServingReplicas: Metric,
    physicalConcurrencyLimit: Float,
    safeOperatingOccupancy: Float,
    requestRates: RequestRates,
    predictiveRequestRate: Metric)

  datatype DependencyObservation = DependencyObservation(
    name: string,
    dependsOn: string,
    p95Latency: Metric,
    utilization: Metric,
    latencyThreshold: Float,
    utilizationThreshold: Float,
    scalable: bool)

  datatype Snapshot = Snapshot(sloTargetP95: Float, target: TargetObservation, dependencies: seq<DependencyObservation>)
}
