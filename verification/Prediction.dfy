// The predictive layer over a healthy hold: what it measures, what rejects it,
// and when it prescales (internal/controller/prediction.go).
module Prediction {
  import opened Values
  import opened Samples
  import opened Observation
  import opened Analyzer
  import opened Policy
  import opened HistoryCache
  import R = Readiness
  import F = Forecast
  import G = Regression
  import Laws = ForecastLaws
  import C = CapacityEstimate

  const RECONCILE_INTERVAL: int := 15 * SECOND
  const MINIMUM_WINDOW_SECONDS: int32 := 2
  const MAXIMUM_WINDOW_SECONDS: int32 := 120
  const LOAD_EVIDENCE_FRACTION: real := 0.3

  datatype Config = Config(enabled: bool, windowSeconds: int32, margin: Float, maxErrorRate: Float)

  // Why a prediction, or a capacity sample, is turned down.
  datatype Rejection =
    | NotHealthy | DependencyUnhealthy | OccupancyUnavailable | NoAggregateOccupancy | HotReplica | RatesIncomplete
    | ErrorRateTooHigh | NoReadyReplicas | Converging | ServingCountInvalid | NoTraffic | NotRealized | TooIdle
    | ReadinessUnknown | NoReadinessEvidence | NoDemandWindow | DemandUnavailable | NoCapacityEvidence
    | WeakTrend | NoHorizon

  predicate DependenciesHealthy(deps: seq<DependencyObservation>) {
    forall d :: d in deps ==> Usable(d.p95Latency) && Usable(d.utilization) && !Saturated(d)
  }

  // capacitySampleEligibility: the first reason against learning from this
  // observation, if any.
  function CapacityRejection(s: Snapshot, verdict: Classification, maxErrorRate: Float,
      ready: int32): Option<Rejection> {
    var t := s.target;
    var effective := EffectiveReplicaCount(t.effectiveServingReplicas, ready);
    if verdict != Healthy then Some(NotHealthy)
    else if !DependenciesHealthy(s.dependencies) then Some(DependencyUnhealthy)
    else if !Usable(t.hottestReplicaOccupancy) || !t.safeOperatingOccupancy.Finite?
      || t.safeOperatingOccupancy.v <= 0.0
    then Some(OccupancyUnavailable)
    else if !Usable(t.aggregateSlotOccupancy) || t.aggregateSlotOccupancy.value.v <= 0.0 then Some(NoAggregateOccupancy)
    else if t.hottestReplicaOccupancy.value.v >= t.safeOperatingOccupancy.v then Some(HotReplica)
    else if !RatesUsable(t.requestRates) then Some(RatesIncomplete)
    else if Greater(t.requestRates.errorRate.value, maxErrorRate) then Some(ErrorRateTooHigh)
    else if ready < 1 then Some(NoReadyReplicas)
    else if ready != t.readyReplicas || ready != t.currentReplicas then Some(Converging)
    else if effective.None? then Some(ServingCountInvalid)
    else if effective.value == 0 then Some(NoTraffic)
    else if effective.value != ready then Some(NotRealized)
    else if t.aggregateSlotOccupancy.value.v / effective.value as real
            < t.safeOperatingOccupancy.v * LOAD_EVIDENCE_FRACTION
    then Some(TooIdle)
    else None
  }

  predicate RatesUsable(rates: RequestRates) {
    Usable(rates.requestRate) && Usable(rates.successful) && Usable(rates.errorRate)
  }

  // Everything one evaluation reads besides the histories.
  datatype Inputs = Inputs(config: Config, snapshot: Snapshot, verdict: Classification,
                           current: Decision, target: Component,
                           limits: Limits, readiness: Option<R.Observation>, learned: R.Learned)

  function ReadinessSeen(i: Inputs): R.Observation {
    if i.readiness.Some? then i.readiness.value else R.NOTHING_READY
  }

  function DemandSample(s: Snapshot): Sample {
    var m := s.target.predictiveRequestRate;
    if Usable(m) then Sample(m.observedAt, m.value) else NO_SAMPLE
  }

  // Successful requests per second for each held slot.
  function CapacitySample(i: Inputs): Sample {
    if CapacityRejection(i.snapshot, i.verdict, i.config.maxErrorRate, ReadinessSeen(i).ready).None? then
      var t := i.snapshot.target;
      Sample(t.requestRates.successful.observedAt,
        Finite(t.requestRates.successful.value.v / t.aggregateSlotOccupancy.value.v))
    else NO_SAMPLE
  }

  function DemandWindow(c: Config): int {
    if MINIMUM_WINDOW_SECONDS <= c.windowSeconds <= MAXIMUM_WINDOW_SECONDS then c.windowSeconds * SECOND else 0
  }

  function ObservationLag(c: Config): int {
    DemandWindow(c) / 2
  }

  predicate HasWindow(c: Config) {
    ObservationLag(c) > 0
  }

  function EvidenceOf(i: Inputs): R.Evidence {
    if i.readiness.Some? then R.ResolveReadinessLead(i.readiness.value, i.learned) else R.NoEvidence("")
  }

  predicate HasReadiness(e: R.Evidence) {
    e.source != R.Unavailable
  }

  // Measured startup, one control loop, and half the rate window.
  function PlanningHorizon(e: R.Evidence, c: Config): int {
    if HasReadiness(e) && HasWindow(c) then e.lead + RECONCILE_INTERVAL + ObservationLag(c) else 0
  }

  function ForecastHorizon(e: R.Evidence, c: Config): int {
    var horizon := PlanningHorizon(e, c);
    if horizon <= 0 then SECOND else horizon
  }

  function Effective(i: Inputs): Option<int32> {
    EffectiveReplicaCount(i.snapshot.target.effectiveServingReplicas, ReadinessSeen(i).ready)
  }

  datatype Assessment = Assessment(evidence: R.Evidence, horizon: int, trend: F.Result, estimate: Option<C.Estimate>,
                                   currentSafe: real, rejections: seq<Rejection>)

  function TrendOf(i: Inputs, demand: seq<Sample>): F.Result {
    F.Predict(demand, i.limits.now, ForecastHorizon(EvidenceOf(i), i.config))
  }

  function EstimateFor(i: Inputs, capacity: seq<Sample>): Option<C.Estimate> {
    C.EstimateOf(capacity, i.snapshot.target.physicalConcurrencyLimit, i.config.margin)
  }

  function CurrentSafe(i: Inputs, estimate: Option<C.Estimate>): real {
    if estimate.None? then 0.0
    else estimate.value.safe * (if Effective(i).Some? then Effective(i).value else 0) as real
  }

  predicate StrongTrend(trend: F.Result) {
    trend.quality == F.High && trend.hasRate && trend.hasTrend && trend.hasFit
  }

  function When(condition: bool, r: Rejection): seq<Rejection> {
    if condition then [r] else []
  }

  function ReadinessRejection(known: bool, ready: int32, hasReadiness: bool): seq<Rejection> {
    if !known then [ReadinessUnknown]
    else if ready < 1 then [NoReadyReplicas]
    else When(!hasReadiness, NoReadinessEvidence)
  }

  function RejectionList(capacity: Option<Rejection>, readiness: seq<Rejection>, hasReadiness: bool,
                         hasWindow: bool, demandValid: bool, hasEstimate: bool, strong: bool,
                         unrealized: bool): seq<Rejection> {
    (if capacity.Some? then [capacity.value] else [])
    + readiness
    + When(!hasWindow, NoDemandWindow)
    + When(!demandValid, DemandUnavailable)
    + When(!hasEstimate, NoCapacityEvidence)
    + When(!strong, WeakTrend)
    + When(!hasReadiness, NoHorizon)
    + When(unrealized, NotRealized)
  }

  predicate UnrealizedReplicas(effective: Option<int32>, ready: int32) {
    effective.Some? && ready > effective.value
  }

  // Every reason against the prediction, in the order they are noted.
  function Rejections(i: Inputs, trend: F.Result, estimate: Option<C.Estimate>): seq<Rejection> {
    var ready, hasReadiness := ReadinessSeen(i).ready, HasReadiness(EvidenceOf(i));
    RejectionList(CapacityRejection(i.snapshot, i.verdict, i.config.maxErrorRate, ready),
                  ReadinessRejection(i.readiness.Some?, ready, hasReadiness), hasReadiness, HasWindow(i.config),
                  Usable(i.snapshot.target.predictiveRequestRate), estimate.Some?, StrongTrend(trend),
                  UnrealizedReplicas(Effective(i), ready))
  }

  function AssessmentOf(i: Inputs, demand: seq<Sample>, capacity: seq<Sample>): Assessment {
    var e, trend, estimate := EvidenceOf(i), TrendOf(i, demand), EstimateFor(i, capacity);
    Assessment(e, PlanningHorizon(e, i.config), trend, estimate, CurrentSafe(i, estimate),
      Rejections(i, trend, estimate))
  }

  function PrescaleInputOf(i: Inputs, a: Assessment): PrescaleInput {
    var t, ready, effective := i.snapshot.target, ReadinessSeen(i).ready, Effective(i);
    PrescaleInput(
      i.current, i.verdict,
      RatesUsable(t.requestRates),
      Usable(t.predictiveRequestRate),
      Usable(t.requestRates.errorRate) && AtMost(t.requestRates.errorRate.value, i.config.maxErrorRate),
      DependenciesHealthy(i.snapshot.dependencies),
      Usable(t.hottestReplicaOccupancy) && FiniteNonnegative(t.safeOperatingOccupancy)
        && Greater(t.safeOperatingOccupancy, t.hottestReplicaOccupancy.value),
      HasReadiness(a.evidence) && a.estimate.Some? && effective.Some? && a.currentSafe >= 0.0
        && effective.value > 0 && effective.value == ready && ready == t.readyReplicas && ready == t.currentReplicas,
      a.rejections != [],
      a.trend.quality, Finite(a.trend.rate), Finite(a.trend.slope), Finite(a.currentSafe), a.horizon,
      i.target.(current := i.current.current), i.limits)
  }

  function PredictionOf(i: Inputs, demand: seq<Sample>, capacity: seq<Sample>): Decision {
    EvaluatePrescale(PrescaleInputOf(i, AssessmentOf(i, demand, capacity)))
  }

  // ----- When a prediction is accepted -----

  lemma EmptyList(capacity: Option<Rejection>, readiness: seq<Rejection>, hasReadiness: bool,
                  hasWindow: bool, demandValid: bool, hasEstimate: bool, strong: bool, unrealized: bool)
    ensures
      |RejectionList(capacity, readiness, hasReadiness, hasWindow, demandValid, hasEstimate, strong, unrealized)| == 0
      <==>
      && capacity.None? && readiness == [] && hasReadiness && hasWindow && demandValid && hasEstimate
      && strong && !unrealized
  {
  }

  lemma NoRejections(i: Inputs, trend: F.Result, estimate: Option<C.Estimate>)
    ensures Rejections(i, trend, estimate) == [] <==>
      && CapacityRejection(i.snapshot, i.verdict, i.config.maxErrorRate, ReadinessSeen(i).ready).None?
      && HasReadiness(EvidenceOf(i)) && HasWindow(i.config)
      && Usable(i.snapshot.target.predictiveRequestRate)
      && estimate.Some? && StrongTrend(trend)
  {
    var ready, hasReadiness := ReadinessSeen(i).ready, HasReadiness(EvidenceOf(i));
    EmptyList(CapacityRejection(i.snapshot, i.verdict, i.config.maxErrorRate, ready),
              ReadinessRejection(i.readiness.Some?, ready, hasReadiness), hasReadiness, HasWindow(i.config),
              Usable(i.snapshot.target.predictiveRequestRate), estimate.Some?, StrongTrend(trend),
              UnrealizedReplicas(Effective(i), ready));
    if CapacityRejection(i.snapshot, i.verdict, i.config.maxErrorRate, ready).None? {
      EligibleObservation(i);
    }
    if hasReadiness {
      ReadyWithEvidence(i);
    }
  }

  lemma ReadyWithEvidence(i: Inputs)
    requires HasReadiness(EvidenceOf(i))
    ensures i.readiness.Some? && ReadinessSeen(i).ready >= 1 && EvidenceOf(i).lead >= 0
    ensures i.readiness.value.revision.Some? && EvidenceOf(i).identity == i.readiness.value.revision.value.identity
  {
    R.EvidenceIsForCurrentRevision(i.readiness.value, i.learned);
  }

  // What an observation is that capacity can be learned from.
  lemma EligibleObservation(i: Inputs)
    requires CapacityRejection(i.snapshot, i.verdict, i.config.maxErrorRate, ReadinessSeen(i).ready).None?
    ensures CapacitySample(i) != NO_SAMPLE && i.verdict == Healthy
    ensures var t, ready := i.snapshot.target, ReadinessSeen(i).ready;
      ready >= 1 && ready == t.readyReplicas == t.currentReplicas && Effective(i) == Some(ready)
  {
  }

  lemma LoadFloor(aggregate: real, n: real, floor: real)
    requires n > 0.0
    ensures aggregate / n >= floor <==> aggregate >= floor * n
  {
    var mean := aggregate / n;
    assert mean * n == aggregate;
    if mean >= floor {
      G.ProductSign(mean - floor, n);
    } else {
      C.ProductPositive(floor - mean, n);
    }
  }

  // Capacity is learned exactly from a healthy, fully converged and fully serving
  // target whose hottest replica is below the safe boundary while the held slots
  // carry at least 30% of the safe occupancy of all replicas.
  lemma LearnableIff(i: Inputs)
    ensures var s := i.snapshot; var t, ready := s.target, ReadinessSeen(i).ready;
      CapacitySample(i) != NO_SAMPLE <==>
        && i.verdict.Healthy? && DependenciesHealthy(s.dependencies) && RatesUsable(t.requestRates)
        && !Greater(t.requestRates.errorRate.value, i.config.maxErrorRate)
        && Usable(t.hottestReplicaOccupancy) && Usable(t.aggregateSlotOccupancy) && t.safeOperatingOccupancy.Finite?
        && t.hottestReplicaOccupancy.value.v < t.safeOperatingOccupancy.v
        && ready >= 1 && ready == t.readyReplicas == t.currentReplicas && Effective(i) == Some(ready)
        && t.aggregateSlotOccupancy.value.v >= t.safeOperatingOccupancy.v * LOAD_EVIDENCE_FRACTION * ready as real
  {
    var t, ready := i.snapshot.target, ReadinessSeen(i).ready;
    if Usable(t.aggregateSlotOccupancy) && t.safeOperatingOccupancy.Finite? && ready >= 1 {
      LoadFloor(t.aggregateSlotOccupancy.value.v, ready as real, t.safeOperatingOccupancy.v * LOAD_EVIDENCE_FRACTION);
      if t.safeOperatingOccupancy.v > 0.0 {
        C.ProductPositive(t.safeOperatingOccupancy.v * LOAD_EVIDENCE_FRACTION, ready as real);
      }
    }
  }

  lemma SafeIsPositive(i: Inputs, capacity: seq<Sample>)
    requires EstimateFor(i, capacity).Some? && Effective(i).Some? && Effective(i).value >= 1
    ensures CurrentSafe(i, EstimateFor(i, capacity)) > 0.0
  {
    C.SafeCapacityIsEfficiencyTimesOccupancy(capacity, i.snapshot.target.physicalConcurrencyLimit, i.config.margin);
    C.ProductPositive(EstimateFor(i, capacity).value.safe, Effective(i).value as real);
  }

  lemma StrongMeansRising(demand: seq<Sample>, now: int, horizon: int)
    ensures var trend := F.Predict(demand, now, horizon);
      trend.quality == F.High ==> StrongTrend(trend) && trend.slope > 0.0
  {
    Laws.ResultFlags(demand, now, horizon);
  }

  // What the estimate, the trend and the horizon are worth once nothing has
  // been rejected.
  lemma AcceptableNumbers(i: Inputs, demand: seq<Sample>, capacity: seq<Sample>)
    requires AssessmentOf(i, demand, capacity).rejections == []
    ensures var a := AssessmentOf(i, demand, capacity);
      && Effective(i) == Some(ReadinessSeen(i).ready) && ReadinessSeen(i).ready >= 1
      && a.currentSafe > 0.0 && a.trend.slope > 0.0
      && a.horizon == a.evidence.lead + RECONCILE_INTERVAL + ObservationLag(i.config) > 0
  {
    NoRejections(i, TrendOf(i, demand), EstimateFor(i, capacity));
    EligibleObservation(i);
    SafeIsPositive(i, capacity);
    StrongMeansRising(demand, i.limits.now, ForecastHorizon(EvidenceOf(i), i.config));
    ReadyWithEvidence(i);
  }

  // With a maximum error rate that is a number, an empty rejection reason already
  // opens every boolean gate of the policy.
  lemma NoRejectionOpensEveryGate(i: Inputs, demand: seq<Sample>, capacity: seq<Sample>)
    requires AssessmentOf(i, demand, capacity).rejections == [] && !i.config.maxErrorRate.NaN?
    ensures var p := PrescaleInputOf(i, AssessmentOf(i, demand, capacity));
      && p.classification == Healthy && p.requestTelemetryValid && p.predictiveDemandValid && p.errorRateHealthy
      && p.dependenciesHealthy && p.targetUnsaturated && p.capacityEvidenceValid && !p.rejected && p.quality == F.High
      && p.horizon > 0
  {
    var a := AssessmentOf(i, demand, capacity);
    NoRejections(i, a.trend, a.estimate);
    AcceptableNumbers(i, demand, capacity);
  }

  // ----- A prescale in numbers -----

  // The lead time in hand: the startup measured now, or else the remembered one, of
  // the revision that is current; whole nanoseconds of the remembered seconds.
  predicate Lead(i: Inputs, lead: int) {
    && i.readiness.Some? && i.readiness.value.ready >= 1
    && i.readiness.value.revision.Some? && i.readiness.value.revision.value.identity != ""
    && var measured, kept := i.readiness.value.startup, i.learned;
      if measured.Some? && measured.value.lead >= 0 && measured.value.readyAt != 0 then lead == measured.value.lead
      else
        && kept.identity == i.readiness.value.revision.value.identity
        && kept.observedAt.Some? && kept.observedAt.value != 0
        && kept.leadSeconds.Some? && kept.leadSeconds.value.Finite? && kept.leadSeconds.value.v >= 0.0
        && lead as real <= kept.leadSeconds.value.v * 1_000_000_000.0 < lead as real + 1.0
  }

  lemma LeadIff(i: Inputs, lead: int)
    ensures HasReadiness(EvidenceOf(i)) && EvidenceOf(i).lead == lead <==> Lead(i, lead)
  {
  }

  // A healthy verdict, healthy dependencies, and no more errors than allowed.
  predicate Untroubled(i: Inputs) {
    var rates := i.snapshot.target.requestRates;
    && i.verdict.Healthy?
    && (forall d :: d in i.snapshot.dependencies ==>
      Usable(d.p95Latency) && Usable(d.utilization)
      && !Greater(d.p95Latency.value, d.latencyThreshold) && !Greater(d.utilization.value, d.utilizationThreshold))
    && Usable(rates.requestRate) && Usable(rates.successful) && Usable(rates.errorRate)
    && !Greater(rates.errorRate.value, i.config.maxErrorRate)
  }

  // A converged target all of whose replicas serve, below the safe boundary yet
  // loaded to at least 30% of it.
  predicate Loaded(t: TargetObservation, ready: int32) {
    && Usable(t.hottestReplicaOccupancy) && Usable(t.aggregateSlotOccupancy) && t.safeOperatingOccupancy.Finite?
    && t.hottestReplicaOccupancy.value.v < t.safeOperatingOccupancy.v
    && t.aggregateSlotOccupancy.value.v >= t.safeOperatingOccupancy.v * 0.3 * ready as real
    && ready >= 1 && ready == t.readyReplicas == t.currentReplicas
    && Usable(t.effectiveServingReplicas) && t.effectiveServingReplicas.value.v == ready as real
  }

  predicate Steady(i: Inputs, ready: int32) {
    Untroubled(i) && Loaded(i.snapshot.target, ready)
  }

  lemma SteadyIff(i: Inputs)
    ensures CapacityRejection(i.snapshot, i.verdict, i.config.maxErrorRate, ReadinessSeen(i).ready).None? <==>
      Steady(i, ReadinessSeen(i).ready)
  {
    LearnableIff(i);
    EffectiveCountIff(i.snapshot.target.effectiveServingReplicas, ReadinessSeen(i).ready, ReadinessSeen(i).ready);
  }

  // Three efficiencies have been learned, and limit and margin make sense.
  predicate CapacityKnown(i: Inputs, capacity: seq<Sample>) {
    var limit, margin := i.snapshot.target.physicalConcurrencyLimit, i.config.margin;
    && |capacity| >= 3 && (forall s :: s in capacity ==> s.timestamp != 0 && s.value.Finite? && s.value.v > 0.0)
    && limit.Finite? && limit.v > 0.0 && margin.Finite? && 0.0 < margin.v && margin.v <= 1.0
  }

  // The forecast at startup plus one control loop plus half the rate window is
  // reliable and exceeds `safe`.
  predicate Outgrows(i: Inputs, demand: seq<Sample>, lead: int, safe: real) {
    var trend := F.Predict(demand, i.limits.now, lead + 15 * SECOND + i.config.windowSeconds * SECOND / 2);
    2 <= i.config.windowSeconds && i.config.windowSeconds <= 120 && trend.quality == F.High && trend.rate > safe
  }

  // The plain conjunction behind a prescale, given what the Ready replicas can
  // safely carry.
  ghost predicate PrescaleConditions(i: Inputs, demand: seq<Sample>, capacity: seq<Sample>, safe: real) {
    && i.current.action.Hold?
    && Steady(i, ReadinessSeen(i).ready)
    && AtMost(i.snapshot.target.requestRates.errorRate.value, i.config.maxErrorRate)
    && Usable(i.snapshot.target.predictiveRequestRate)
    && CapacityKnown(i, capacity) && (exists lead :: Lead(i, lead) && Outgrows(i, demand, lead, safe))
    && !Waiting(i.limits)
    && Raisable(i.target.(current := i.current.current), i.limits.upStep)
  }

  // Within its bounds, and something can be added (or the sum does not fit).
  predicate Raisable(c: Component, step: int32) {
    && 1 <= c.min && c.min <= c.current && c.current <= c.max && 1 <= step
    && !(c.current == c.max && c.current + step <= 0x7fff_ffff)
  }

  lemma RaisableIff(c: Component, step: int32)
    ensures Raisable(c, step) <==> ValidComponent(c, step, 1) && StepUp(c, step) != c.current
  {
    if ValidComponent(c, step, 1) {
      StepUpIs(c, step);
    }
  }

  lemma EstimateIff(i: Inputs, capacity: seq<Sample>)
    ensures EstimateFor(i, capacity).Some? <==> CapacityKnown(i, capacity)
  {
  }

  lemma SafeIs(i: Inputs, capacity: seq<Sample>, ready: int32, safe: real)
    requires CapacityKnown(i, capacity) && Effective(i) == Some(ready)
    requires safe == C.Conservative(C.Efficiencies(capacity)) * i.snapshot.target.physicalConcurrencyLimit.v
      * i.config.margin.v * ready as real
    ensures CurrentSafe(i, EstimateFor(i, capacity)) == safe
  {
    EstimateIff(i, capacity);
  }

  lemma HorizonIs(i: Inputs, lead: int)
    requires Lead(i, lead) && 2 <= i.config.windowSeconds <= 120
    ensures HasWindow(i.config)
    ensures ForecastHorizon(EvidenceOf(i), i.config) == PlanningHorizon(EvidenceOf(i), i.config)
      == lead + 15 * SECOND + i.config.windowSeconds * SECOND / 2 > 0
  {
    LeadIff(i, lead);
    ReadyWithEvidence(i);
  }

  lemma OutgrowsIff(i: Inputs, demand: seq<Sample>, lead: int, safe: real)
    requires Lead(i, lead)
    ensures Outgrows(i, demand, lead, safe) <==>
      HasWindow(i.config) && TrendOf(i, demand).quality == F.High && TrendOf(i, demand).rate > safe
  {
    if 2 <= i.config.windowSeconds <= 120 {
      HorizonIs(i, lead);
    }
  }

  lemma SomeLeadOutgrows(i: Inputs, demand: seq<Sample>, safe: real)
    ensures (exists lead :: Lead(i, lead) && Outgrows(i, demand, lead, safe)) <==>
      && HasReadiness(EvidenceOf(i)) && HasWindow(i.config)
      && TrendOf(i, demand).quality == F.High && TrendOf(i, demand).rate > safe
  {
    var lead := EvidenceOf(i).lead;
    LeadIff(i, lead);
    if Lead(i, lead) {
      OutgrowsIff(i, demand, lead, safe);
    }
    if other :| Lead(i, other) && Outgrows(i, demand, other, safe) {
      LeadIff(i, other);
      OutgrowsIff(i, demand, other, safe);
    }
  }

  // With nothing rejected, what is left to ask for is the forecast, the cooldown
  // and the target's bounds.
  lemma AcceptedPrescale(i: Inputs, demand: seq<Sample>, capacity: seq<Sample>)
    requires i.current.action != PrescaleTarget && AssessmentOf(i, demand, capacity).rejections == []
    ensures PredictionOf(i, demand, capacity).action == PrescaleTarget <==>
      && i.current.action.Hold?
      && AtMost(i.snapshot.target.requestRates.errorRate.value, i.config.maxErrorRate)
      && TrendOf(i, demand).rate > CurrentSafe(i, EstimateFor(i, capacity))
      && !CoolingDown(i.limits)
      && Raisable(i.target.(current := i.current.current), i.limits.upStep)
  {
    var a := AssessmentOf(i, demand, capacity);
    PrescaleDecision(PrescaleInputOf(i, a));
    NoRejections(i, a.trend, a.estimate);
    AcceptableNumbers(i, demand, capacity);
    RaisableIff(i.target.(current := i.current.current), i.limits.upStep);
  }

  lemma UnrejectedIff(i: Inputs, demand: seq<Sample>, capacity: seq<Sample>)
    ensures AssessmentOf(i, demand, capacity).rejections == [] <==>
      && Steady(i, ReadinessSeen(i).ready) && HasReadiness(EvidenceOf(i)) && HasWindow(i.config)
      && Usable(i.snapshot.target.predictiveRequestRate)
      && EstimateFor(i, capacity).Some? && TrendOf(i, demand).quality == F.High
  {
    NoRejections(i, TrendOf(i, demand), EstimateFor(i, capacity));
    SteadyIff(i);
    StrongMeansRising(demand, i.limits.now, ForecastHorizon(EvidenceOf(i), i.config));
  }

  lemma RejectedNeverPrescales(i: Inputs, demand: seq<Sample>, capacity: seq<Sample>)
    requires i.current.action != PrescaleTarget && AssessmentOf(i, demand, capacity).rejections != []
    ensures PredictionOf(i, demand, capacity).action != PrescaleTarget
  {
    PrescaleDecision(PrescaleInputOf(i, AssessmentOf(i, demand, capacity)));
  }

  lemma SteadyEffective(i: Inputs)
    requires Steady(i, ReadinessSeen(i).ready)
    ensures Effective(i) == Some(ReadinessSeen(i).ready)
  {
    SteadyIff(i);
    EligibleObservation(i);
  }

  lemma PrescaleIffSafe(i: Inputs, demand: seq<Sample>, capacity: seq<Sample>, safe: real)
    requires i.current.action != PrescaleTarget
    requires CapacityKnown(i, capacity) && Steady(i, ReadinessSeen(i).ready) ==>
      CurrentSafe(i, EstimateFor(i, capacity)) == safe
    ensures PredictionOf(i, demand, capacity).action == PrescaleTarget <==>
      PrescaleConditions(i, demand, capacity, safe)
  {
    UnrejectedIff(i, demand, capacity);
    EstimateIff(i, capacity);
    SomeLeadOutgrows(i, demand, safe);
    if AssessmentOf(i, demand, capacity).rejections == [] {
      AcceptedPrescale(i, demand, capacity);
    } else {
      RejectedNeverPrescales(i, demand, capacity);
    }
  }

  // PRESCALE_TARGET exactly under the plain conjunction, where each Ready replica
  // safely carries the conservative efficiency times its slots times the margin.
  lemma PrescaleIff(i: Inputs, demand: seq<Sample>, capacity: seq<Sample>, safe: real)
    requires i.current.action != PrescaleTarget
    requires CapacityKnown(i, capacity) ==>
      safe == C.Conservative(C.Efficiencies(capacity)) * i.snapshot.target.physicalConcurrencyLimit.v
        * i.config.margin.v * ReadinessSeen(i).ready as real
    ensures PredictionOf(i, demand, capacity).action == PrescaleTarget <==>
      PrescaleConditions(i, demand, capacity, safe)
  {
    if CapacityKnown(i, capacity) && Steady(i, ReadinessSeen(i).ready) {
      SteadyEffective(i);
      SafeIs(i, capacity, ReadinessSeen(i).ready, safe);
    }
    PrescaleIffSafe(i, demand, capacity, safe);
  }

  // The numbers behind the threshold exist.
  lemma SafeLoad(i: Inputs, capacity: seq<Sample>) returns (safe: real)
    ensures CapacityKnown(i, capacity) ==>
      safe == C.Conservative(C.Efficiencies(capacity)) * i.snapshot.target.physicalConcurrencyLimit.v
        * i.config.margin.v * ReadinessSeen(i).ready as real
  {
    safe := 0.0;
    if CapacityKnown(i, capacity) {
      safe := C.Conservative(C.Efficiencies(capacity)) * i.snapshot.target.physicalConcurrencyLimit.v
        * i.config.margin.v * ReadinessSeen(i).ready as real;
    }
  }

  // Without a lead time, or a rate window, the trend is still that of one second.
  lemma TrendWithoutHorizon(i: Inputs, demand: seq<Sample>)
    requires (forall lead :: !Lead(i, lead)) || i.config.windowSeconds < 2 || i.config.windowSeconds > 120
    ensures TrendOf(i, demand) == F.Predict(demand, i.limits.now, 1 * SECOND)
  {
    LeadIff(i, EvidenceOf(i).lead);
  }

  // Only fitted histories are HIGH, and they cover the horizon.
  lemma HorizonIsCovered(demand: seq<Sample>, now: int, horizon: int)
    requires F.Predict(demand, now, horizon).quality == F.High
    ensures Laws.Fits(demand, now, horizon) && 0 < horizon <= Laws.Span(demand) <= F.TREND_FIT_WINDOW
  {
    Laws.ResultFlags(demand, now, horizon);
    Laws.FitWindowFacts(demand, now, horizon);
  }

  // What an accepted prediction rests on: the observation is one that capacity
  // could be learned from, every requested replica is Ready and serving, and the
  // lead time belongs to the current revision.
  lemma AcceptedObservation(i: Inputs, demand: seq<Sample>, capacity: seq<Sample>)
    requires i.current.action != PrescaleTarget && PredictionOf(i, demand, capacity).action == PrescaleTarget
    ensures CapacitySample(i) != NO_SAMPLE && i.verdict == Healthy
    ensures var t, ready := i.snapshot.target, ReadinessSeen(i).ready;
      ready >= 1 && ready == t.readyReplicas == t.currentReplicas && Effective(i) == Some(ready)
    ensures HasReadiness(EvidenceOf(i)) && i.readiness.Some? && i.readiness.value.revision.Some?
      && EvidenceOf(i).identity == i.readiness.value.revision.value.identity
  {
    var safe := SafeLoad(i, capacity);
    PrescaleIff(i, demand, capacity, safe);
    SteadyIff(i);
    EligibleObservation(i);
    var lead :| Lead(i, lead);
    LeadIff(i, lead);
    ReadyWithEvidence(i);
  }

  // What it forecasts: the planning horizon, startup plus one control loop plus
  // half the rate window, is covered by the fitted span, and the forecast exceeds
  // what the Ready replicas can safely carry: efficiency times slots times margin,
  // for each of them.
  lemma AcceptedForecast(i: Inputs, demand: seq<Sample>, capacity: seq<Sample>, safe: real)
    returns (lead: int, horizon: int)
    requires i.current.action != PrescaleTarget && PredictionOf(i, demand, capacity).action == PrescaleTarget
    requires CapacityKnown(i, capacity) ==>
      safe == C.Conservative(C.Efficiencies(capacity)) * i.snapshot.target.physicalConcurrencyLimit.v
        * i.config.margin.v * ReadinessSeen(i).ready as real
    ensures CapacityKnown(i, capacity)
    ensures Lead(i, lead) && horizon == lead + 15 * SECOND + i.config.windowSeconds * SECOND / 2
    ensures Laws.Fits(demand, i.limits.now, horizon) && 0 < horizon <= Laws.Span(demand) <= 120 * SECOND
    ensures F.Predict(demand, i.limits.now, horizon).rate > safe
  {
    PrescaleIff(i, demand, capacity, safe);
    lead := LeadThatOutgrows(i, demand, capacity, safe);
    horizon := lead + 15 * SECOND + i.config.windowSeconds * SECOND / 2;
    HorizonIsCovered(demand, i.limits.now, horizon);
  }

  lemma LeadThatOutgrows(i: Inputs, demand: seq<Sample>, capacity: seq<Sample>, safe: real) returns (lead: int)
    requires PrescaleConditions(i, demand, capacity, safe)
    ensures Lead(i, lead) && Outgrows(i, demand, lead, safe) && CapacityKnown(i, capacity)
  {
    lead :| Lead(i, lead) && Outgrows(i, demand, lead, safe);
  }

  // ----- The evaluation as the program runs it -----

  // The histories after this observation, from what the cache held before.
  function HistoriesAfter(m: Histories, key: string, i: Inputs): Entry {
    Refreshed(Lookup(m, key), DemandSample(i.snapshot), CapacitySample(i), i.limits.now)
  }

  // appendReason, one after the other.
  method CollectRejections(capacity: Option<Rejection>, readinessKnown: bool, ready: int32, hasReadiness: bool,
                           hasWindow: bool, demandValid: bool, hasEstimate: bool, strong: bool,
                           effective: Option<int32>)
    returns (rejections: seq<Rejection>)
    ensures rejections
      == RejectionList(capacity, ReadinessRejection(readinessKnown, ready, hasReadiness), hasReadiness, hasWindow,
                       demandValid, hasEstimate, strong, UnrealizedReplicas(effective, ready))
  {
    rejections := if capacity.Some? then [capacity.value] else [];
    if !readinessKnown {
      rejections := rejections + [ReadinessUnknown];
    } else if ready < 1 {
      rejections := rejections + [NoReadyReplicas];
    } else if !hasReadiness {
      rejections := rejections + [NoReadinessEvidence];
    }
    rejections := rejections + When(!hasWindow, NoDemandWindow);
    rejections := rejections + When(!demandValid, DemandUnavailable);
    rejections := rejections + When(!hasEstimate, NoCapacityEvidence);
    rejections := rejections + When(!strong, WeakTrend);
    rejections := rejections + When(!hasReadiness, NoHorizon);
    rejections := rejections + When(UnrealizedReplicas(effective, ready), NotRealized);
  }

  // The part of evaluatePrediction after the histories: fit, estimate, decide.
  method Decide(i: Inputs, demand: seq<Sample>, capacity: seq<Sample>)
    returns (decision: Decision, assessment: Assessment)
    ensures assessment == AssessmentOf(i, demand, capacity) && decision == PredictionOf(i, demand, capacity)
  {
    var evidence, ready := EvidenceOf(i), ReadinessSeen(i).ready;
    var trend := F.LinearForecast(demand, i.limits.now, ForecastHorizon(evidence, i.config));
    var estimate := C.SafePerReplicaCapacity(capacity, i.snapshot.target.physicalConcurrencyLimit, i.config.margin);
    var rejections := CollectRejections(
      CapacityRejection(i.snapshot, i.verdict, i.config.maxErrorRate, ready), i.readiness.Some?, ready,
      HasReadiness(evidence), HasWindow(i.config), Usable(i.snapshot.target.predictiveRequestRate),
      estimate.Some?, StrongTrend(trend), Effective(i));
    assessment := Assessment(evidence, PlanningHorizon(evidence, i.config), trend, estimate, CurrentSafe(i, estimate),
      rejections);
    decision := EvaluatePrescale(PrescaleInputOf(i, assessment));
  }

  // evaluatePrediction: read readiness, update the shared histories, decide.
  method EvaluatePrediction(cache: PredictionCache, key: string, inputs: Inputs, view: R.TargetView)
    returns (decision: Decision, assessment: Assessment)
    requires cache.Valid() && key != ""
    modifies cache, cache.tags.Keys
    ensures cache.Valid()
    ensures var i := inputs.(readiness := R.ReadinessOf(view)); var entry := HistoriesAfter(old(cache.model), key, i);
      && cache.model == Updated(old(cache.model), key, DemandSample(i.snapshot), CapacitySample(i), i.limits.now)
      && assessment == AssessmentOf(i, entry.demand, entry.capacity)
      && decision == PredictionOf(i, entry.demand, entry.capacity)
  {
    var readiness := R.TargetReadiness(view);
    var i := inputs.(readiness := readiness);
    assert key in cache.histories ==> Owns(cache.tags, key, cache.histories[key]);
    var demand, capacity := cache.Update(key, DemandSample(i.snapshot), CapacitySample(i), i.limits.now);
    decision, assessment := Decide(
      i, demand.data[demand.off..demand.off + demand.len], capacity.data[capacity.off..capacity.off + capacity.len]);
  }
}
