// One reconcile of one resource: read, analyse, decide, write at most one scale,
// remember it in the status (internal/controller/optiscaler_controller.go).
module Controller {
  import opened Values
  import opened Samples
  import opened Observation
  import opened Analyzer
  import opened Policy
  import opened HistoryCache
  import opened Spec
  import P = Prediction
  import R = Readiness

  const DEFAULT_MARGIN: real := 0.75

  // What the cluster and Prometheus answer during one reconcile. A failed read is
  // None; the two booleans say whether the writes go through.
  datatype DependencyReading = DependencyReading(scale: Option<int32>, latency: Metric, utilization: Metric)

  datatype Readings = Readings(
    now: int,
    targetScale: Option<int32>,
    targetReady: Option<int32>,
    prometheusReady: bool,
    p95: Metric, aggregate: Metric, hottest: Metric, effective: Metric,
    requestRate: Metric, errorRequestRate: Metric, predictive: Metric,
    dependencies: seq<DependencyReading>,
    view: R.TargetView,
    scaleUpdated: bool,
    statusUpdated: bool)

  // The part of the status that later reconciles read.
  datatype Status = Status(lastScale: Option<int>, learned: R.Learned)

  const NEW_STATUS := Status(None, R.NOTHING_LEARNED)

  datatype Write = Write(workload: string, from: int32, to: int32)

  const NO_READING := DependencyReading(None, INVALID_METRIC, INVALID_METRIC)

  function ReadingAt(readings: Readings, i: nat): DependencyReading {
    if i < |readings.dependencies| then readings.dependencies[i] else NO_READING
  }

  // An unreadable scale reads as zero replicas and takes the telemetry with it.
  function ScaleOr0(r: DependencyReading): int32 {
    if r.scale.Some? then r.scale.value else 0
  }

  function ObservedDependency(d: DependencySpec, r: DependencyReading): DependencyObservation {
    var latency := if r.scale.None? then r.latency.(isValid := false, isFresh := false) else r.latency;
    var utilization := if r.scale.None? then r.utilization.(isValid := false, isFresh := false) else r.utilization;
    DependencyObservation(d.name, d.dependsOn, latency, utilization, d.latencyThreshold, d.utilizationThreshold,
      d.scalable)
  }

  function ComponentOf(d: DependencySpec, r: DependencyReading): Component {
    Component(d.name, ScaleOr0(r), d.min, d.max, d.scalable)
  }

  // What is needed to write the scale of a component.
  datatype ScaleEntry = ScaleEntry(workload: string, replicas: int32)

  function ConfiguredMargin(margin: Float): real {
    if margin.Finite? && 0.0 < margin.v <= 1.0 then margin.v else DEFAULT_MARGIN
  }

  // Without held-slot work or traffic-bearing replicas an empty max() is zero.
  function HottestOccupancy(readings: Readings): Metric {
    if readings.effective.isValid && readings.effective.value == Finite(0.0)
       && Usable(readings.aggregate) && readings.aggregate.value.v == 0.0 && !readings.hottest.isValid then
      Metric(Finite(0.0), readings.aggregate.observedAt, true, readings.aggregate.isFresh)
    else readings.hottest
  }

  function TargetSeen(s: OptiScalerSpec, readings: Readings, current: int32, ready: int32): TargetObservation {
    TargetObservation(
      current, ready, readings.p95, readings.aggregate, HottestOccupancy(readings), readings.effective,
      s.metric.physicalLimit, Scaled(s.metric.physicalLimit, ConfiguredMargin(s.prediction.margin)),
      DeriveRequestRates(readings.requestRate, readings.errorRequestRate),
      if s.prediction.enabled then readings.predictive else INVALID_METRIC)
  }

  function ObservedDependencies(deps: seq<DependencySpec>, readings: Readings): seq<DependencyObservation> {
    seq(|deps|, i requires 0 <= i < |deps| => ObservedDependency(deps[i], ReadingAt(readings, i)))
  }

  // The maps the loop over the dependencies fills.
  function Components(deps: seq<DependencySpec>, readings: Readings): map<string, Component> {
    if |deps| == 0 then map[]
    else
      var i := |deps| - 1;
      Components(deps[..i], readings)[deps[i].name := ComponentOf(deps[i], ReadingAt(readings, i))]
  }

  function Entries(deps: seq<DependencySpec>, readings: Readings, target: ScaleEntry): map<string, ScaleEntry> {
    if |deps| == 0 then map["target" := target]
    else
      var i := |deps| - 1;
      var entry := ScaleEntry(deps[i].workload.name, ScaleOr0(ReadingAt(readings, i)));
      Entries(deps[..i], readings, target)[deps[i].name := entry]
  }

  method ReadDependencies(deps: seq<DependencySpec>, readings: Readings, target: ScaleEntry)
    returns (observed: seq<DependencyObservation>, components: map<string, Component>, entries: map<string, ScaleEntry>)
    ensures observed == ObservedDependencies(deps, readings)
    ensures components == Components(deps, readings) && entries == Entries(deps, readings, target)
  {
    observed, components, entries := [], map[], map["target" := target];
    for i := 0 to |deps|
      invariant observed == ObservedDependencies(deps[..i], readings)
      invariant components == Components(deps[..i], readings) && entries == Entries(deps[..i], readings, target)
    {
      var d, r := deps[i], ReadingAt(readings, i);
      assert deps[..i + 1][..i] == deps[..i];
      observed := observed + [ObservedDependency(d, r)];
      components := components[d.name := ComponentOf(d, r)];
      entries := entries[d.name := ScaleEntry(d.workload.name, ScaleOr0(r))];
    }
    assert deps[..|deps|] == deps;
  }

  function SnapshotOf(s: OptiScalerSpec, readings: Readings, current: int32, ready: int32): Snapshot {
    Snapshot(s.sloTargetP95, TargetSeen(s, readings, current, ready), ObservedDependencies(s.dependencies, readings))
  }

  function LimitsOf(s: OptiScalerSpec, status: Status, now: int): Limits {
    Limits(s.policy.upStep, s.policy.downStep, s.policy.cooldownSeconds * SECOND, status.lastScale, now)
  }

  function TargetComponent(s: OptiScalerSpec, current: int32): Component {
    Component("target", current, s.min, s.max, true)
  }

  function CapacityInputOf(s: OptiScalerSpec, status: Status, readings: Readings, current: int32,
      ready: int32): CapacityInput {
    CapacityInput(AnalysisOf(SnapshotOf(s, readings, current, ready)), TargetComponent(s, current),
                  Components(s.dependencies, readings), LimitsOf(s, status, readings.now))
  }

  // The reactive decision.
  function Reactive(s: OptiScalerSpec, status: Status, readings: Readings, current: int32, ready: int32): Decision {
    EvaluateCapacity(CapacityInputOf(s, status, readings, current, ready))
  }

  // What the prediction reads; readiness is filled in when it has been read.
  function UnreadInputs(s: OptiScalerSpec, status: Status, readings: Readings, current: int32, ready: int32): P.Inputs {
    var snapshot := SnapshotOf(s, readings, current, ready);
    P.Inputs(s.prediction, snapshot, AnalysisOf(snapshot).classification, Reactive(s, status, readings, current, ready),
             TargetComponent(s, current), LimitsOf(s, status, readings.now), None, status.learned)
  }

  ghost function InputsOf(s: OptiScalerSpec, status: Status, readings: Readings, current: int32,
      ready: int32): P.Inputs {
    UnreadInputs(s, status, readings, current, ready).(readiness := R.ReadinessOf(readings.view))
  }

  predicate RealizationPending(t: TargetObservation) {
    var effective := EffectiveReplicaCount(t.effectiveServingReplicas, t.readyReplicas);
    effective.Some? && t.readyReplicas > effective.value
  }

  // holdTargetScaleForUnrealizedCapacity.
  function HoldUnrealized(d: Decision, t: TargetObservation, requested: int32): Decision {
    if !RealizationPending(t) || d.chosen != "target" || d.action !in {ScaleTarget, PrescaleTarget} then d
    else Decision(Hold, d.chosen, requested, requested, Unrealized)
  }

  // ----- One reconcile, on values -----

  // The decision after the predictive layer, from the histories it answers with.
  ghost function Predicted(m: Histories, key: string, s: OptiScalerSpec, status: Status, readings: Readings,
      current: int32, ready: int32): Decision {
    if !s.prediction.enabled then Reactive(s, status, readings, current, ready)
    else
      var i := InputsOf(s, status, readings, current, ready);
      var entry := P.HistoriesAfter(m, key, i);
      P.PredictionOf(i, entry.demand, entry.capacity)
  }

  ghost function FinalDecision(m: Histories, key: string, s: OptiScalerSpec, status: Status, readings: Readings,
      current: int32, ready: int32): Decision {
    HoldUnrealized(Predicted(m, key, s, status, readings, current, ready), TargetSeen(s, readings, current, ready),
      current)
  }

  ghost function LearnedAfter(s: OptiScalerSpec, status: Status, readings: Readings, current: int32,
      ready: int32): R.Learned {
    if !s.prediction.enabled then status.learned
    else R.Persisted(status.learned, P.EvidenceOf(InputsOf(s, status, readings, current, ready)))
  }

  predicate WritesScale(d: Decision) {
    Scales(d.action) && d.current != d.desired
  }

  // A reconcile that gets as far as a decision.
  predicate Decides(s: OptiScalerSpec, readings: Readings) {
    ValidSpec(s) && readings.targetScale.Some? && readings.prometheusReady && readings.targetReady.Some?
  }

  ghost function DecisionOf(m: Histories, key: string, s: OptiScalerSpec, status: Status, readings: Readings): Decision
    requires Decides(s, readings)
  {
    FinalDecision(m, key, s, status, readings, readings.targetScale.value, readings.targetReady.value)
  }

  ghost function CacheDecided(m: Histories, key: string, s: OptiScalerSpec, status: Status, readings: Readings,
      current: int32, ready: int32): Histories {
    if !s.prediction.enabled then m
    else
      var i := InputsOf(s, status, readings, current, ready);
      Updated(m, key, P.DemandSample(i.snapshot), P.CapacitySample(i), readings.now)
  }

  ghost function CacheAfter(m: Histories, key: string, s: OptiScalerSpec, status: Status,
      readings: Readings): Histories {
    if !Decides(s, readings) then m
    else CacheDecided(m, key, s, status, readings, readings.targetScale.value, readings.targetReady.value)
  }

  function WriteFor(d: Decision, entries: map<string, ScaleEntry>, readings: Readings): Option<Write> {
    if !WritesScale(d) || !readings.scaleUpdated || d.chosen !in entries then None
    else Some(Write(entries[d.chosen].workload, entries[d.chosen].replicas, d.desired))
  }

  // A failed scale write returns before the status is written.
  function StatusFor(d: Decision, learned: R.Learned, status: Status, readings: Readings): Status {
    if !readings.statusUpdated || (WritesScale(d) && !readings.scaleUpdated) then status
    else if WritesScale(d) then Status(Some(readings.now), learned)
    else status.(learned := learned)
  }

  ghost function WriteOf(m: Histories, key: string, s: OptiScalerSpec, status: Status,
      readings: Readings): Option<Write> {
    if !Decides(s, readings) then None
    else WriteFor(DecisionOf(m, key, s, status, readings), EntriesOf(s, readings), readings)
  }

  function EntriesOf(s: OptiScalerSpec, readings: Readings): map<string, ScaleEntry>
    requires Decides(s, readings)
  {
    Entries(s.dependencies, readings, ScaleEntry(s.workload.name, readings.targetScale.value))
  }

  // The status that is stored afterwards.
  ghost function StatusAfter(m: Histories, key: string, s: OptiScalerSpec, status: Status, readings: Readings): Status {
    if !Decides(s, readings) then status
    else
      StatusFor(DecisionOf(m, key, s, status, readings),
                LearnedAfter(s, status, readings, readings.targetScale.value, readings.targetReady.value),
                status, readings)
  }

  // ----- The chosen component always has an entry -----

  lemma {:induction false} EntriesCover(deps: seq<DependencySpec>, readings: Readings, target: ScaleEntry)
    ensures Entries(deps, readings, target).Keys == Components(deps, readings).Keys + {"target"}
  {
    if |deps| > 0 {
      EntriesCover(deps[..|deps| - 1], readings, target);
    }
  }

  lemma {:induction false} ComponentNames(deps: seq<DependencySpec>, readings: Readings)
    ensures forall n :: n in Components(deps, readings) ==> Components(deps, readings)[n].name == n
  {
    if |deps| > 0 {
      ComponentNames(deps[..|deps| - 1], readings);
    }
  }

  lemma ReactiveChoice(input: CapacityInput)
    requires forall n :: n in input.dependencies ==> input.dependencies[n].name == n
    ensures EvaluateCapacity(input).chosen in input.dependencies.Keys + {input.target.name}
  {
  }

  lemma PredictionChoice(i: P.Inputs, demand: seq<Sample>, capacity: seq<Sample>)
    ensures P.PredictionOf(i, demand, capacity).chosen in {i.current.chosen, i.target.name}
  {
    PrescaleChoice(P.PrescaleInputOf(i, P.AssessmentOf(i, demand, capacity)));
  }

  lemma PrescaleChoice(input: PrescaleInput)
    ensures EvaluatePrescale(input).chosen in {input.current.chosen, input.target.name}
  {
  }

  lemma FinalChoice(m: Histories, key: string, s: OptiScalerSpec, status: Status, readings: Readings, current: int32,
      ready: int32)
    ensures FinalDecision(m, key, s, status, readings, current, ready).chosen
      in Components(s.dependencies, readings).Keys + {"target"}
  {
    ComponentNames(s.dependencies, readings);
    ReactiveChoice(CapacityInputOf(s, status, readings, current, ready));
    if s.prediction.enabled {
      var i := InputsOf(s, status, readings, current, ready);
      var entry := P.HistoriesAfter(m, key, i);
      PredictionChoice(i, entry.demand, entry.capacity);
    }
  }

  // ----- One reconcile, as the program runs it -----

  // reconcileCapacity after the target has been read, up to the decision.
  method DecideCapacity(cache: PredictionCache, key: string, s: OptiScalerSpec, status: Status, readings: Readings,
      current: int32, ready: int32)
    returns (decision: Decision, learned: R.Learned, entries: map<string, ScaleEntry>)
    requires cache.Valid() && key != ""
    modifies cache, cache.tags.Keys
    ensures cache.Valid()
    ensures decision == FinalDecision(old(cache.model), key, s, status, readings, current, ready)
    ensures learned == LearnedAfter(s, status, readings, current, ready)
    ensures entries == Entries(s.dependencies, readings, ScaleEntry(s.workload.name, current))
    ensures cache.model == CacheDecided(old(cache.model), key, s, status, readings, current, ready)
  {
    var observed, components;
    observed, components, entries := ReadDependencies(s.dependencies, readings, ScaleEntry(s.workload.name, current));
    var snapshot := Snapshot(s.sloTargetP95, TargetSeen(s, readings, current, ready), observed);
    var analysis := Analyze(snapshot);
    var limits, target := LimitsOf(s, status, readings.now), TargetComponent(s, current);
    decision := EvaluateCapacity(CapacityInput(analysis, target, components, limits));
    learned := status.learned;
    if s.prediction.enabled {
      var inputs := P.Inputs(s.prediction, snapshot, analysis.classification, decision, target, limits, None,
        status.learned);
      var assessment;
      decision, assessment := P.EvaluatePrediction(cache, key, inputs, readings.view);
      learned := R.Persisted(learned, assessment.evidence);
    }
    decision := HoldUnrealized(decision, snapshot.target, current);
  }

  // The single write and the status update.
  method Apply(decision: Decision, learned: R.Learned, entries: map<string, ScaleEntry>, status: Status,
      readings: Readings)
    returns (status': Status, write: Option<Write>)
    requires decision.chosen in entries
    ensures write == WriteFor(decision, entries, readings) && status' == StatusFor(decision, learned, status, readings)
  {
    status', write := status, None;
    var updated := status.(learned := learned);
    if WritesScale(decision) {
      if !readings.scaleUpdated {
        return;
      }
      var entry := entries[decision.chosen];
      write := Some(Write(entry.workload, entry.replicas, decision.desired));
      updated := updated.(lastScale := Some(readings.now));
    }
    if readings.statusUpdated {
      status' := updated;
    }
  }

  // reconcileCapacity.
  method ReconcileCapacity(cache: PredictionCache, key: string, s: OptiScalerSpec, status: Status, readings: Readings,
      current: int32, ready: int32)
    returns (status': Status, write: Option<Write>)
    requires cache.Valid() && key != ""
    modifies cache, cache.tags.Keys
    ensures cache.Valid() && cache.model == CacheDecided(old(cache.model), key, s, status, readings, current, ready)
    ensures var d := FinalDecision(old(cache.model), key, s, status, readings, current, ready);
      && write == WriteFor(d, Entries(s.dependencies, readings, ScaleEntry(s.workload.name, current)), readings)
      && status' == StatusFor(d, LearnedAfter(s, status, readings, current, ready), status, readings)
  {
    EntriesCover(s.dependencies, readings, ScaleEntry(s.workload.name, current));
    FinalChoice(cache.model, key, s, status, readings, current, ready);
    var decision, learned, entries := DecideCapacity(cache, key, s, status, readings, current, ready);
    status', write := Apply(decision, learned, entries, status, readings);
  }

  // Reconcile. The returned status is the one stored, the write the one made.
  method Reconcile(cache: PredictionCache, key: string, s: OptiScalerSpec, status: Status, readings: Readings)
    returns (status': Status, write: Option<Write>)
    requires cache.Valid() && key != ""
    modifies cache, cache.tags.Keys
    ensures cache.Valid() && cache.model == CacheAfter(old(cache.model), key, s, status, readings)
    ensures write == WriteOf(old(cache.model), key, s, status, readings)
    ensures status' == StatusAfter(old(cache.model), key, s, status, readings)
  {
    var valid := ValidateSpec(s);
    if !valid || readings.targetScale.None? || !readings.prometheusReady || readings.targetReady.None? {
      return status, None;
    }
    status', write :=
      ReconcileCapacity(cache, key, s, status, readings, readings.targetScale.value, readings.targetReady.value);
  }
}
