// When a reconcile prescales: from the specification, the stored status, the
// readings and the stored histories.
module PrescaleLaws {
  import opened Values
  import opened Samples
  import opened Observation
  import opened Analyzer
  import opened HistoryCache
  import opened Policy
  import opened Spec
  import opened Controller
  import opened WriteLaws
  import L = ControllerLaws
  import V = VerdictLaws
  import C = CapacityEstimate
  import F = Forecast
  import H = History
  import P = Prediction
  import R = Readiness
  import N = ReadinessLaws

  // ----- The lead time -----

  // The longest clean start of the agreed revision; without one, what is remembered
  // for that revision.
  ghost predicate LeadTime(view: R.TargetView, learned: R.Learned, lead: int) {
    && view.pods.Some? && view.replicaSets.Some?
    && exists hash, uid ::
        && N.Agreed(view.deployment, view.replicaSets.value, hash, uid)
        && (LeadNow(view.pods.value, hash, uid, lead)
            || (NoCleanStart(view.pods.value, hash, uid) && LeadRemembered(learned, hash, lead)))
  }

  ghost predicate LeadNow(pods: seq<R.Pod>, hash: string, uid: string, lead: int) {
    exists readyAt :: N.LongestStart(pods, hash, uid, lead, readyAt)
  }

  ghost predicate NoCleanStart(pods: seq<R.Pod>, hash: string, uid: string) {
    forall pod, l, r :: pod in pods ==> !N.CleanStart(pod, hash, uid, l, r)
  }

  // Whole nanoseconds of the remembered seconds.
  predicate LeadRemembered(learned: R.Learned, hash: string, lead: int) {
    && learned.identity == hash && learned.observedAt.Some? && learned.observedAt.value != 0
    && learned.leadSeconds.Some? && learned.leadSeconds.value.Finite? && learned.leadSeconds.value.v >= 0.0
    && lead as real <= learned.leadSeconds.value.v * 1_000_000_000.0 < lead as real + 1.0
  }

  lemma StartupSeen(pods: seq<R.Pod>, hash: string, uid: string)
    requires hash != ""
    ensures R.Longest(pods, R.Revision(hash, uid)).None? <==> NoCleanStart(pods, hash, uid)
    ensures forall lead, readyAt :: R.Longest(pods, R.Revision(hash, uid)) == Some(R.Startup(lead, readyAt)) <==>
      N.LongestStart(pods, hash, uid, lead, readyAt)
    ensures R.Longest(pods, R.Revision(hash, uid)).Some? ==>
      var best := R.Longest(pods, R.Revision(hash, uid)).value; best.lead >= 0 && best.readyAt != 0
  {
    var revision := R.Revision(hash, uid);
    R.LongestIsMaximal(pods, revision);
    forall lead, readyAt
      ensures R.Longest(pods, revision) == Some(R.Startup(lead, readyAt)) <==>
        N.LongestStart(pods, hash, uid, lead, readyAt)
    {
      N.LongestStartIff(pods, hash, uid, lead, readyAt);
    }
    forall pod, l, r
      ensures N.CleanStart(pod, hash, uid, l, r) <==>
        R.Measurable(pod, revision) && R.StartupOf(pod) == R.Startup(l, r)
    {
      N.CleanStartIff(pod, hash, uid, l, r);
    }
    if NoCleanStart(pods, hash, uid) {
      NothingMeasurable(pods, hash, uid);
    }
    var best := R.Longest(pods, revision);
    if best.Some? {
      assert N.LongestStart(pods, hash, uid, best.value.lead, best.value.readyAt);
    }
  }

  lemma MeasurableIsClean(pod: R.Pod, hash: string, uid: string)
    requires R.Measurable(pod, R.Revision(hash, uid)) && hash != ""
    ensures exists l, r :: N.CleanStart(pod, hash, uid, l, r)
  {
    var startup := R.StartupOf(pod);
    N.CleanStartIff(pod, hash, uid, startup.lead, startup.readyAt);
  }

  lemma NothingMeasurable(pods: seq<R.Pod>, hash: string, uid: string)
    requires NoCleanStart(pods, hash, uid) && hash != ""
    ensures forall pod :: pod in pods ==> !R.Measurable(pod, R.Revision(hash, uid))
  {
    forall pod | pod in pods
      ensures !R.Measurable(pod, R.Revision(hash, uid))
    {
      if R.Measurable(pod, R.Revision(hash, uid)) {
        MeasurableIsClean(pod, hash, uid);
      }
    }
  }

  lemma LeadTimeIff(i: P.Inputs, view: R.TargetView, lead: int)
    requires i.readiness == R.ReadinessOf(view)
    ensures P.Lead(i, lead) <==> LeadTime(view, i.learned, lead) && P.ReadinessSeen(i).ready >= 1
  {
    var seen := R.RevisionSeen(view);
    forall hash, uid
      ensures seen == Some(R.Revision(hash, uid)) <==>
        view.replicaSets.Some? && N.Agreed(view.deployment, view.replicaSets.value, hash, uid)
    {
      N.RevisionIff(view, hash, uid);
    }
    if seen.Some? {
      var hash, uid := seen.value.identity, seen.value.uid;
      assert seen == Some(R.Revision(hash, uid));
      if view.pods.Some? {
        StartupSeen(view.pods.value, hash, uid);
      }
    }
  }

  // ----- Steady operation -----

  // The samples the histories get: the demand, and successes per held slot.
  predicate IsEfficiency(readings: Readings, efficiency: real) {
    && Usable(readings.aggregate) && Usable(readings.requestRate) && Usable(readings.errorRequestRate)
    && efficiency * readings.aggregate.value.v == readings.requestRate.value.v - readings.errorRequestRate.value.v
  }

  // Requests come, and no larger share of them fails than allowed.
  predicate FewErrors(readings: Readings, maxErrorRate: real) {
    && Usable(readings.requestRate) && Usable(readings.errorRequestRate)
    && readings.requestRate.value.v > 0.0
    && readings.errorRequestRate.value.v <= readings.requestRate.value.v
    && readings.errorRequestRate.value.v <= maxErrorRate * readings.requestRate.value.v
  }

  lemma RatioAtMost(requests: real, errors: real, ratio: real, limit: real)
    requires requests > 0.0 && requests - errors == requests * (1.0 - ratio)
    ensures ratio <= limit <==> errors <= limit * requests
  {
    assert errors == ratio * requests;
    if ratio <= limit {
      assert (limit - ratio) * requests >= 0.0;
    } else {
      C.ProductPositive(ratio - limit, requests);
    }
  }

  lemma FewErrorsIff(readings: Readings, maxErrorRate: real)
    ensures var rates := DeriveRequestRates(readings.requestRate, readings.errorRequestRate);
      FewErrors(readings, maxErrorRate) <==>
        && Usable(rates.requestRate) && Usable(rates.successful) && Usable(rates.errorRate)
        && rates.errorRate.value.v <= maxErrorRate
  {
    DerivedRates(readings.requestRate, readings.errorRequestRate);
    var rates := DeriveRequestRates(readings.requestRate, readings.errorRequestRate);
    if Usable(rates.errorRate) {
      RatioAtMost(
        readings.requestRate.value.v, readings.errorRequestRate.value.v, rates.errorRate.value.v, maxErrorRate);
    }
  }

  ghost predicate NoneOverloaded(s: OptiScalerSpec, readings: Readings) {
    forall k: nat :: k < |s.dependencies| ==> V.Read(ReadingAt(readings, k)) && !V.Overloaded(s, readings, k)
  }

  lemma NoneOverloadedIff(s: OptiScalerSpec, readings: Readings)
    requires ValidSpec(s)
    ensures NoneOverloaded(s, readings) <==>
      forall d :: d in ObservedDependencies(s.dependencies, readings) ==>
        Usable(d.p95Latency) && Usable(d.utilization)
        && !Greater(d.p95Latency.value, d.latencyThreshold) && !Greater(d.utilization.value, d.utilizationThreshold)
  {
    var deps := ObservedDependencies(s.dependencies, readings);
    forall k: nat | k < |deps|
      ensures V.Read(ReadingAt(readings, k)) && !V.Overloaded(s, readings, k) <==>
        Usable(deps[k].p95Latency) && Usable(deps[k].utilization) && !Saturated(deps[k])
    {
      V.ObservedAt(s, readings, k);
      assert s.dependencies[k] in s.dependencies;
      assert ValidDependency(s.dependencies[k], s.workload.name);
    }
    if NoneOverloaded(s, readings) {
      forall d | d in deps
        ensures Usable(d.p95Latency) && Usable(d.utilization) && !Saturated(d)
      {
        var k: nat :| k < |deps| && deps[k] == d;
      }
    } else {
      var k: nat :| k < |deps| && !(V.Read(ReadingAt(readings, k)) && !V.Overloaded(s, readings, k));
      assert deps[k] in deps;
    }
  }

  // A healthy target, all of whose requested replicas are Ready (by the Deployment
  // and by the pods) and serve, below its safe share of slots but using at least 30%
  // of it, with healthy dependencies and few errors.
  ghost predicate SteadyNow(s: OptiScalerSpec, readings: Readings, current: int32, ready: int32)
    requires ValidSpec(s) && s.prediction.enabled
  {
    var safe := s.metric.physicalLimit.v * s.prediction.margin.v;
    && (exists h :: V.Complete(s, readings, ready, h) && readings.p95.value.v <= s.sloTargetP95.v && h < safe)
    && NoneOverloaded(s, readings) && FewErrors(readings, s.prediction.maxErrorRate.v)
    && Usable(readings.aggregate) && readings.aggregate.value.v >= safe * 0.3 * ready as real
    && ready >= 1 && ready == current && AllServe(readings, ready)
    && R.ReadinessOf(readings.view).Some? && R.ReadinessOf(readings.view).value.ready == ready
  }

  lemma LoadedIff(s: OptiScalerSpec, readings: Readings, current: int32, ready: int32, pods: int32, safe: real)
    requires ValidSpec(s) && s.prediction.enabled && safe == s.metric.physicalLimit.v * s.prediction.margin.v
    ensures P.Loaded(TargetSeen(s, readings, current, ready), pods) <==>
      && (exists h :: V.Hottest(readings, h) && h < safe)
      && Usable(readings.aggregate) && readings.aggregate.value.v >= safe * 0.3 * pods as real
      && pods >= 1 && pods == ready == current && Usable(readings.effective) && AllServe(readings, pods)
  {
    var hottest := HottestOccupancy(readings);
    forall h
      ensures Usable(hottest) && hottest.value.v == h <==> V.Hottest(readings, h)
    {
      V.HottestIff(readings, h);
    }
    assert Usable(hottest) ==> V.Hottest(readings, hottest.value.v);
  }

  lemma UntroubledIff(s: OptiScalerSpec, status: Status, readings: Readings, current: int32, ready: int32)
    requires ValidSpec(s) && s.prediction.enabled
    ensures P.Untroubled(InputsOf(s, status, readings, current, ready)) <==> Quiet(s, readings, ready)
  {
    V.HealthyIff(s, readings, current, ready);
    NoneOverloadedIff(s, readings);
    FewErrorsIff(readings, s.prediction.maxErrorRate.v);
  }

  lemma OneHottest(readings: Readings, g: real, h: real)
    requires V.Hottest(readings, g) && V.Hottest(readings, h)
    ensures g == h
  {
  }

  // Nothing but the load is in question.
  ghost predicate Quiet(s: OptiScalerSpec, readings: Readings, ready: int32)
    requires ValidSpec(s) && s.prediction.enabled
  {
    && (exists h :: V.Complete(s, readings, ready, h) && readings.p95.value.v <= s.sloTargetP95.v)
    && NoneOverloaded(s, readings) && FewErrors(readings, s.prediction.maxErrorRate.v)
  }

  lemma SteadyOf(s: OptiScalerSpec, i: P.Inputs, readings: Readings, current: int32, ready: int32)
    requires ValidSpec(s) && s.prediction.enabled && i.readiness == R.ReadinessOf(readings.view)
    requires i.snapshot.target == TargetSeen(s, readings, current, ready)
    requires P.Untroubled(i) <==> Quiet(s, readings, ready)
    ensures P.Steady(i, P.ReadinessSeen(i).ready) <==> SteadyNow(s, readings, current, ready)
  {
    var safe := s.metric.physicalLimit.v * s.prediction.margin.v;
    LoadedIff(s, readings, current, ready, P.ReadinessSeen(i).ready, safe);
    HealthyBelow(s, readings, ready, safe);
  }

  // The test of the model on an observation is that of the readings.
  lemma SteadyNowIff(s: OptiScalerSpec, status: Status, readings: Readings, current: int32, ready: int32)
    requires ValidSpec(s) && s.prediction.enabled
    ensures var i := InputsOf(s, status, readings, current, ready);
      P.Steady(i, P.ReadinessSeen(i).ready) <==> SteadyNow(s, readings, current, ready)
  {
    UntroubledIff(s, status, readings, current, ready);
    SteadyOf(s, InputsOf(s, status, readings, current, ready), readings, current, ready);
  }

  lemma HealthyBelow(s: OptiScalerSpec, readings: Readings, ready: int32, safe: real)
    requires ValidSpec(s)
    ensures (exists h :: V.Complete(s, readings, ready, h) && readings.p95.value.v <= s.sloTargetP95.v && h < safe) <==>
      && (exists h :: V.Complete(s, readings, ready, h) && readings.p95.value.v <= s.sloTargetP95.v)
      && (exists h :: V.Hottest(readings, h) && h < safe)
  {
    if g, h :| V.Complete(s, readings, ready, g) && V.Hottest(readings, h) {
      OneHottest(readings, g, h);
    }
  }

  // ----- The histories -----

  function Older(a: int, b: int): int {
    if a < b then a else b
  }

  // The histories this reconcile decides with: those stored, with the demand and
  // the efficiency seen now.
  function DemandNow(m: Histories, key: string, readings: Readings): seq<Sample> {
    H.Appended(Demand, Lookup(m, key).demand, Sample(readings.predictive.observedAt, readings.predictive.value),
      readings.now)
  }

  function CapacityNow(m: Histories, key: string, readings: Readings, efficiency: real): seq<Sample> {
    var at := Older(readings.requestRate.observedAt, readings.errorRequestRate.observedAt);
    H.Appended(Capacity, Lookup(m, key).capacity, Sample(at, Finite(efficiency)), readings.now)
  }

  lemma SameQuotient(a: real, n: real, q: real)
    requires n > 0.0 && q * n == a
    ensures q == a / n
  {
    var p := a / n;
    assert p * n == a;
    if p < q {
      C.ProductPositive(q - p, n);
    } else if q < p {
      C.ProductPositive(p - q, n);
    }
  }

  lemma LoadIsPositive(safe: real, ready: int32, aggregate: real)
    requires safe > 0.0 && ready >= 1 && aggregate >= safe * 0.3 * ready as real
    ensures aggregate > 0.0
  {
    C.ProductPositive(safe * 0.3, ready as real);
  }

  // What is learned from steady operation is successes per second and held slot, as
  // of the older of the two rates; from anything else nothing is learned.
  lemma EfficiencyIsLearned(s: OptiScalerSpec, status: Status, readings: Readings, current: int32, ready: int32,
      efficiency: real)
    requires ValidSpec(s) && s.prediction.enabled
    requires SteadyNow(s, readings, current, ready) ==> IsEfficiency(readings, efficiency)
    ensures P.CapacitySample(InputsOf(s, status, readings, current, ready)) ==
      if SteadyNow(s, readings, current, ready)
      then Sample(Older(readings.requestRate.observedAt, readings.errorRequestRate.observedAt), Finite(efficiency))
      else NO_SAMPLE
  {
    var i := InputsOf(s, status, readings, current, ready);
    SteadyNowIff(s, status, readings, current, ready);
    P.SteadyIff(i);
    if SteadyNow(s, readings, current, ready) {
      LearnedSample(s, i, readings, current, ready, efficiency);
    }
  }

  lemma LearnedSample(s: OptiScalerSpec, i: P.Inputs, readings: Readings, current: int32, ready: int32,
      efficiency: real)
    requires ValidSpec(s) && s.prediction.enabled && SteadyNow(s, readings, current, ready)
    requires IsEfficiency(readings, efficiency) && i.snapshot.target == TargetSeen(s, readings, current, ready)
    requires P.CapacityRejection(i.snapshot, i.verdict, i.config.maxErrorRate, P.ReadinessSeen(i).ready).None?
    ensures P.CapacitySample(i)
      == Sample(Older(readings.requestRate.observedAt, readings.errorRequestRate.observedAt), Finite(efficiency))
  {
    var rates := DeriveRequestRates(readings.requestRate, readings.errorRequestRate);
    DerivedRates(readings.requestRate, readings.errorRequestRate);
    FewErrorsIff(readings, s.prediction.maxErrorRate.v);
    V.SafeLimit(s.metric.physicalLimit.v, s.prediction.margin.v);
    LoadIsPositive(s.metric.physicalLimit.v * s.prediction.margin.v, ready, readings.aggregate.value.v);
    SameQuotient(rates.successful.value.v, readings.aggregate.value.v, efficiency);
  }

  // ----- The decision -----

  // The forecast at startup, control loop and half the rate window from now is
  // reliable and exceeds `safe`.
  ghost predicate Outgrown(s: OptiScalerSpec, status: Status, readings: Readings, demand: seq<Sample>, safe: real) {
    exists lead :: LeadTime(readings.view, status.learned, lead) && Grows(s, readings, demand, lead, safe)
  }

  predicate Grows(s: OptiScalerSpec, readings: Readings, demand: seq<Sample>, lead: int, safe: real) {
    var trend := F.Predict(demand, readings.now, lead + 15 * SECOND + s.prediction.windowSeconds * SECOND / 2);
    trend.quality == F.High && trend.rate > safe
  }

  predicate ThreeLearned(capacity: seq<Sample>) {
    |capacity| >= 3 && forall x :: x in capacity ==> x.timestamp != 0 && x.value.Finite? && x.value.v > 0.0
  }

  // The target is to be raised ahead of its demand.
  ghost predicate PrescaleDue(s: OptiScalerSpec, status: Status, readings: Readings, current: int32, ready: int32,
      demand: seq<Sample>, capacity: seq<Sample>, safe: real)
    requires ValidSpec(s) && s.prediction.enabled
  {
    && SteadyNow(s, readings, current, ready) && Usable(readings.predictive)
    && ThreeLearned(capacity) && Outgrown(s, status, readings, demand, safe)
    && !Cooling(s, status, readings.now) && CanRise(current, s.min, s.max, s.policy.upStep)
  }

  lemma HealthyHolds(s: OptiScalerSpec, status: Status, readings: Readings, current: int32, ready: int32)
    requires ValidSpec(s) && AnalysisOf(SnapshotOf(s, readings, current, ready)).classification.Healthy?
    ensures var d := Reactive(s, status, readings, current, ready);
      && (d.action.Hold? <==> s.min <= current && current <= s.max)
      && d.chosen == "target" && d.current == current && d.desired == current
  {
    ActionTable(CapacityInputOf(s, status, readings, current, ready));
    UnscaledDecision(CapacityInputOf(s, status, readings, current, ready));
  }

  lemma OutgrownIff(s: OptiScalerSpec, i: P.Inputs, status: Status, readings: Readings, demand: seq<Sample>, safe: real)
    requires ValidSpec(s) && s.prediction.enabled && i.config == s.prediction && i.limits.now == readings.now
    requires i.readiness == R.ReadinessOf(readings.view) && i.learned == status.learned && P.ReadinessSeen(i).ready >= 1
    ensures (exists lead :: P.Lead(i, lead) && P.Outgrows(i, demand, lead, safe)) <==>
      Outgrown(s, status, readings, demand, safe)
  {
    forall lead
      ensures P.Lead(i, lead) <==> LeadTime(readings.view, status.learned, lead)
      ensures P.Outgrows(i, demand, lead, safe) <==> Grows(s, readings, demand, lead, safe)
    {
      LeadTimeIff(i, readings.view, lead);
    }
  }

  lemma ConditionsIff(s: OptiScalerSpec, i: P.Inputs, status: Status, readings: Readings, current: int32, ready: int32,
      demand: seq<Sample>, capacity: seq<Sample>, safe: real)
    requires ValidSpec(s) && s.prediction.enabled && i.config == s.prediction
    requires i.readiness == R.ReadinessOf(readings.view) && i.learned == status.learned
    requires i.limits == LimitsOf(s, status, readings.now) && i.target == TargetComponent(s, current)
    requires i.snapshot.target == TargetSeen(s, readings, current, ready)
    requires SteadyNow(s, readings, current, ready) && P.Steady(i, P.ReadinessSeen(i).ready)
    requires i.current.current == current && (i.current.action.Hold? <==> s.min <= current && current <= s.max)
    ensures P.PrescaleConditions(i, demand, capacity, safe) <==>
      PrescaleDue(s, status, readings, current, ready, demand, capacity, safe)
  {
    OutgrownIff(s, i, status, readings, demand, safe);
    CoolingIff(s, status, readings.now);
  }

  // The stored histories with the samples of this reconcile.
  lemma HistoriesNow(m: Histories, key: string, s: OptiScalerSpec, status: Status, readings: Readings, current: int32,
      ready: int32, efficiency: real)
    requires ValidSpec(s) && s.prediction.enabled && SteadyNow(s, readings, current, ready)
    requires IsEfficiency(readings, efficiency) && Usable(readings.predictive)
    ensures var entry := P.HistoriesAfter(m, key, InputsOf(s, status, readings, current, ready));
      entry.demand == DemandNow(m, key, readings) && entry.capacity == CapacityNow(m, key, readings, efficiency)
  {
    EfficiencyIsLearned(s, status, readings, current, ready, efficiency);
  }

  // Each Ready replica safely carries the conservative efficiency times its slots
  // times the margin.
  predicate IsSafe(s: OptiScalerSpec, capacity: seq<Sample>, ready: int32, safe: real)
    requires ValidSpec(s) && s.prediction.enabled
  {
    ThreeLearned(capacity) ==>
      safe == C.Conservative(C.Efficiencies(capacity)) * s.metric.physicalLimit.v * s.prediction.margin.v
        * ready as real
  }

  lemma KnownIff(s: OptiScalerSpec, i: P.Inputs, capacity: seq<Sample>)
    requires ValidSpec(s) && s.prediction.enabled && i.config == s.prediction
    requires i.snapshot.target.physicalConcurrencyLimit == s.metric.physicalLimit
    ensures P.CapacityKnown(i, capacity) <==> ThreeLearned(capacity)
  {
  }

  lemma SteadyPrescaleIff(s: OptiScalerSpec, i: P.Inputs, status: Status, readings: Readings, current: int32,
      ready: int32, demand: seq<Sample>, capacity: seq<Sample>, safe: real)
    requires ValidSpec(s) && s.prediction.enabled && i.config == s.prediction
    requires i.readiness == R.ReadinessOf(readings.view) && i.learned == status.learned
    requires i.limits == LimitsOf(s, status, readings.now) && i.target == TargetComponent(s, current)
    requires i.snapshot.target == TargetSeen(s, readings, current, ready)
    requires SteadyNow(s, readings, current, ready) && P.Steady(i, P.ReadinessSeen(i).ready)
    requires i.current.current == current && (i.current.action.Hold? <==> s.min <= current && current <= s.max)
    requires IsSafe(s, capacity, ready, safe) && i.current.action != PrescaleTarget
    ensures P.PredictionOf(i, demand, capacity).action == PrescaleTarget <==>
      PrescaleDue(s, status, readings, current, ready, demand, capacity, safe)
  {
    KnownIff(s, i, capacity);
    P.PrescaleIff(i, demand, capacity, safe);
    ConditionsIff(s, i, status, readings, current, ready, demand, capacity, safe);
  }

  lemma UnsteadyNeverPrescales(i: P.Inputs, demand: seq<Sample>, capacity: seq<Sample>)
    requires i.current.action != PrescaleTarget
    requires !P.Steady(i, P.ReadinessSeen(i).ready) || !Usable(i.snapshot.target.predictiveRequestRate)
    ensures P.PredictionOf(i, demand, capacity).action != PrescaleTarget
  {
    var safe := P.SafeLoad(i, capacity);
    P.PrescaleIff(i, demand, capacity, safe);
  }

  // The decision is to prescale exactly when that is due.
  lemma PrescaleDecidedIff(m: Histories, key: string, s: OptiScalerSpec, status: Status, readings: Readings,
      current: int32, ready: int32, efficiency: real, safe: real)
    requires ValidSpec(s) && s.prediction.enabled
    requires SteadyNow(s, readings, current, ready) ==> IsEfficiency(readings, efficiency)
    requires IsSafe(s, CapacityNow(m, key, readings, efficiency), ready, safe)
    ensures Predicted(m, key, s, status, readings, current, ready).action.PrescaleTarget? <==>
      PrescaleDue(s, status, readings, current, ready, DemandNow(m, key, readings),
                  CapacityNow(m, key, readings, efficiency), safe)
  {
    var i := InputsOf(s, status, readings, current, ready);
    var entry := P.HistoriesAfter(m, key, i);
    SteadyNowIff(s, status, readings, current, ready);
    L.ReactiveNeverPrescales(s, status, readings, current, ready);
    if SteadyNow(s, readings, current, ready) && Usable(readings.predictive) {
      V.HealthyIff(s, readings, current, ready);
      HealthyHolds(s, status, readings, current, ready);
      HistoriesNow(m, key, s, status, readings, current, ready, efficiency);
      SteadyPrescaleIff(s, i, status, readings, current, ready, entry.demand, entry.capacity, safe);
    } else {
      UnsteadyNeverPrescales(i, entry.demand, entry.capacity);
    }
  }
}
