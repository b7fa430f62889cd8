// What every single reconcile keeps.
module ControllerLaws {
  import opened Values
  import opened Samples
  import opened Observation
  import opened Analyzer
  import opened Policy
  import opened HistoryCache
  import opened Spec
  import opened Controller
  import A = AttributionCycles
  import C = CapacityEstimate
  import P = Prediction
  import R = Readiness

  // ----- The maps built from the dependencies -----

  lemma {:induction false} DependencyAt(deps: seq<DependencySpec>, readings: Readings, target: ScaleEntry, k: nat)
    requires UniqueNames(deps) && k < |deps| && deps[k].name != "target"
    ensures deps[k].name in Components(deps, readings)
      && Components(deps, readings)[deps[k].name] == ComponentOf(deps[k], ReadingAt(readings, k))
    ensures deps[k].name in Entries(deps, readings, target)
    ensures Entries(deps, readings, target)[deps[k].name]
      == ScaleEntry(deps[k].workload.name, ScaleOr0(ReadingAt(readings, k)))
  {
    if k < |deps| - 1 {
      DependencyAt(deps[..|deps| - 1], readings, target, k);
    }
  }

  lemma {:induction false} TargetAt(deps: seq<DependencySpec>, readings: Readings, target: ScaleEntry)
    requires forall d :: d in deps ==> d.name != "target"
    ensures "target" in Entries(deps, readings, target) && Entries(deps, readings, target)["target"] == target
    ensures "target" !in Components(deps, readings)
  {
    if |deps| > 0 {
      assert deps[|deps| - 1] in deps;
      TargetAt(deps[..|deps| - 1], readings, target);
    }
  }

  // ----- Attribution and policy fit together -----

  // For a validated specification the analyzer names a configured dependency
  // with the scalability it reported, so the policy branches for "not
  // configured", "not scalable", "not a blocked dependency" and "unsupported"
  // cannot be reached.
  lemma PolicyUnderstandsAnalysis(s: OptiScalerSpec, status: Status, readings: Readings, current: int32, ready: int32)
    requires ValidSpec(s)
    ensures Reactive(s, status, readings, current, ready).why
      !in {NotConfigured, NotScalable, NotABlockedDependency, Unsupported}
  {
    var input := CapacityInputOf(s, status, readings, current, ready);
    if input.analysis.classification in {DependencySaturated, CapacityBlocked} {
      var k := BottleneckIndex(s, readings, current, ready);
      DependencyAt(s.dependencies, readings, ScaleEntry("", 0), k);
    }
    UnderstoodBranches(input);
  }

  lemma UnderstoodBranches(input: CapacityInput)
    requires input.analysis.classification in {DependencySaturated, CapacityBlocked} ==>
      && input.analysis.component in input.dependencies
      && (input.analysis.classification.DependencySaturated? <==> input.dependencies[input.analysis.component].scalable)
    ensures EvaluateCapacity(input).why !in {NotConfigured, NotScalable, NotABlockedDependency, Unsupported}
  {
  }

  // The dependency behind an attribution.
  lemma BottleneckIndex(s: OptiScalerSpec, readings: Readings, current: int32, ready: int32) returns (k: nat)
    requires ValidSpec(s)
    requires AnalysisOf(SnapshotOf(s, readings, current, ready)).classification
      in {DependencySaturated, CapacityBlocked}
    ensures var analysis := AnalysisOf(SnapshotOf(s, readings, current, ready));
      && k < |s.dependencies| && s.dependencies[k].name == analysis.component != "target"
      && (analysis.classification.DependencySaturated? <==> s.dependencies[k].scalable)
  {
    var snapshot := SnapshotOf(s, readings, current, ready);
    AttributionIsJustified(snapshot);
    var root := Roots(snapshot.dependencies)[0];
    k :| 0 <= k < |snapshot.dependencies| && snapshot.dependencies[k] == root;
    assert s.dependencies[k] in s.dependencies;
  }

  // The graph the analyzer reads is that of the specification: for a validated
  // one the names are unique and the thresholds valid, whatever is measured.
  lemma ObservedGraphIsConfigured(s: OptiScalerSpec, readings: Readings)
    requires ValidSpec(s)
    ensures A.UniqueNames(ObservedDependencies(s.dependencies, readings))
      && A.ThresholdsValid(ObservedDependencies(s.dependencies, readings))
  {
    var deps := ObservedDependencies(s.dependencies, readings);
    forall d, e | d in deps && e in deps && d.name == e.name
      ensures d == e
    {
      var i :| 0 <= i < |deps| && deps[i] == d;
      var j :| 0 <= j < |deps| && deps[j] == e;
      assert i == j by {
        assert s.dependencies[i].name == s.dependencies[j].name;
      }
    }
    ObservedThresholds(s, readings);
  }

  lemma ObservedThresholds(s: OptiScalerSpec, readings: Readings)
    requires forall d :: d in s.dependencies ==> ValidDependency(d, s.workload.name)
    ensures A.ThresholdsValid(ObservedDependencies(s.dependencies, readings))
  {
    var deps := ObservedDependencies(s.dependencies, readings);
    forall d | d in deps
      ensures FiniteNonnegative(d.latencyThreshold) && FiniteNonnegative(d.utilizationThreshold)
    {
      var k :| 0 <= k < |deps| && deps[k] == d;
      assert s.dependencies[k] in s.dependencies;
    }
  }

  // ----- The safe capacity is that of the safe operating occupancy -----

  // For a validated, prediction-enabled specification the safe capacity of a
  // replica is the chosen efficiency times the very safe operating occupancy that
  // the analyzer compares the hottest replica with.
  lemma SafeCapacityMatchesOccupancy(s: OptiScalerSpec, status: Status, readings: Readings, current: int32,
      ready: int32, capacity: seq<Sample>)
    requires ValidSpec(s) && s.prediction.enabled
    requires P.EstimateFor(UnreadInputs(s, status, readings, current, ready), capacity).Some?
    ensures var e := P.EstimateFor(UnreadInputs(s, status, readings, current, ready), capacity).value;
      var occupancy := TargetSeen(s, readings, current, ready).safeOperatingOccupancy;
      occupancy.Finite? && e.safe == e.efficiency * occupancy.v && e.efficiency in C.Efficiencies(capacity)
  {
    C.SafeCapacityIsEfficiencyTimesOccupancy(capacity, s.metric.physicalLimit, s.prediction.margin);
  }

  // ----- Safety of one write -----

  predicate WithinEnvelope(w: Write, min: int32, max: int32, step: int32) {
    min <= w.from < w.to <= max && w.to - w.from <= step
  }

  predicate TargetWrite(s: OptiScalerSpec, readings: Readings, w: Write) {
    w.workload == s.workload.name && readings.targetScale == Some(w.from)
  }

  predicate DependencyWrite(s: OptiScalerSpec, readings: Readings, w: Write, k: nat) {
    && k < |s.dependencies| && s.dependencies[k].scalable
    && w.workload == s.dependencies[k].workload.name && ReadingAt(readings, k).scale == Some(w.from)
  }

  // The write raises the workload of one component, by at most the step, and
  // inside that component's bounds.
  ghost predicate SafeWrite(s: OptiScalerSpec, readings: Readings, w: Write) {
    || (TargetWrite(s, readings, w) && WithinEnvelope(w, s.min, s.max, s.policy.upStep))
    || exists k: nat ::
      DependencyWrite(s, readings, w, k)
        && WithinEnvelope(w, s.dependencies[k].min, s.dependencies[k].max, s.policy.upStep)
  }

  // A scaling decision and the component it is about.
  predicate Raises(d: Decision, c: Component, l: Limits) {
    && d.chosen == c.name && d.current == c.current && d.desired == StepUp(c, l.upStep) != c.current
    && ValidComponent(c, l.upStep, 1) && !CoolingDown(l)
  }

  lemma ReactiveRaises(input: CapacityInput)
    requires Scales(EvaluateCapacity(input).action)
    ensures Raises(EvaluateCapacity(input), Acted(input), input.limits)
  {
    CapacityDecision(input);
  }

  lemma PredictionRaises(i: P.Inputs, demand: seq<Sample>, capacity: seq<Sample>)
    requires !i.current.action.PrescaleTarget? && Scales(P.PredictionOf(i, demand, capacity).action)
    ensures P.PredictionOf(i, demand, capacity) == i.current
      || (i.current.action.Hold? && i.verdict.Healthy? && P.PredictionOf(i, demand, capacity).action.PrescaleTarget?
          && Raises(P.PredictionOf(i, demand, capacity), i.target.(current := i.current.current), i.limits))
  {
    PrescaleRaises(P.PrescaleInputOf(i, P.AssessmentOf(i, demand, capacity)));
  }

  lemma PrescaleRaises(input: PrescaleInput)
    requires !input.current.action.PrescaleTarget? && Scales(EvaluatePrescale(input).action)
    ensures EvaluatePrescale(input) == input.current
      || (input.current.action.Hold? && input.classification.Healthy? && EvaluatePrescale(input).action.PrescaleTarget?
          && Raises(EvaluatePrescale(input), input.target, input.limits))
  {
    PrescaleDecision(input);
  }

  // A healthy verdict leaves the target's own replica count in the decision.
  lemma HealthyKeepsTarget(input: CapacityInput)
    requires input.analysis.classification.Healthy?
    ensures EvaluateCapacity(input).chosen == input.target.name
      && EvaluateCapacity(input).current == input.target.current
    ensures !Scales(EvaluateCapacity(input).action)
  {
  }

  predicate RaisesDependency(d: Decision, s: OptiScalerSpec, readings: Readings, l: Limits, k: nat) {
    && k < |s.dependencies| && s.dependencies[k].scalable
    && Raises(d, ComponentOf(s.dependencies[k], ReadingAt(readings, k)), l)
  }

  // The component of a scaling decision: the target, or a scalable dependency.
  ghost predicate RaisesOne(d: Decision, s: OptiScalerSpec, l: Limits, readings: Readings, current: int32) {
    Raises(d, TargetComponent(s, current), l)
      || (d.action.ScaleDependency? && exists k: nat :: RaisesDependency(d, s, readings, l, k))
  }

  lemma ReactiveRaisesOne(s: OptiScalerSpec, status: Status, readings: Readings, current: int32, ready: int32)
    requires ValidSpec(s) && Scales(Reactive(s, status, readings, current, ready).action)
    ensures RaisesOne(Reactive(s, status, readings, current, ready), s, LimitsOf(s, status, readings.now), readings,
      current)
    ensures !Reactive(s, status, readings, current, ready).action.PrescaleTarget?
  {
    var input := CapacityInputOf(s, status, readings, current, ready);
    ReactiveRaises(input);
    CapacityDecision(input);
    if input.analysis.classification.DependencySaturated? {
      var k := BottleneckIndex(s, readings, current, ready);
      DependencyAt(s.dependencies, readings, ScaleEntry("", 0), k);
      assert RaisesDependency(EvaluateCapacity(input), s, readings, input.limits, k);
    }
  }

  lemma ReactiveNeverPrescales(s: OptiScalerSpec, status: Status, readings: Readings, current: int32, ready: int32)
    ensures !Reactive(s, status, readings, current, ready).action.PrescaleTarget?
  {
  }

  lemma PredictedRaisesOne(m: Histories, key: string, s: OptiScalerSpec, status: Status, readings: Readings,
      current: int32, ready: int32)
    requires ValidSpec(s) && Scales(Predicted(m, key, s, status, readings, current, ready).action)
    ensures RaisesOne(Predicted(m, key, s, status, readings, current, ready), s, LimitsOf(s, status, readings.now),
      readings, current)
  {
    if s.prediction.enabled {
      var i := InputsOf(s, status, readings, current, ready);
      var entry := P.HistoriesAfter(m, key, i);
      ReactiveNeverPrescales(s, status, readings, current, ready);
      PredictionRaises(i, entry.demand, entry.capacity);
      if i.verdict.Healthy? {
        HealthyKeepsTarget(CapacityInputOf(s, status, readings, current, ready));
      }
      if P.PredictionOf(i, entry.demand, entry.capacity) == i.current {
        ReactiveRaisesOne(s, status, readings, current, ready);
      }
    } else {
      ReactiveRaisesOne(s, status, readings, current, ready);
    }
  }

  // The realization guard only ever turns a target scale into a hold.
  lemma GuardOnlyHolds(d: Decision, t: TargetObservation, requested: int32)
    ensures var held := HoldUnrealized(d, t, requested);
      && (Scales(held.action) ==> held == d)
      && (held != d ==> held.action.Hold? && held.current == held.desired)
  {
  }

  lemma TargetWriteIsSafe(d: Decision, s: OptiScalerSpec, l: Limits, readings: Readings, current: int32, w: Write)
    requires ValidSpec(s) && readings.targetScale == Some(current) && l.upStep == s.policy.upStep
    requires Raises(d, TargetComponent(s, current), l)
    requires WriteFor(d, Entries(s.dependencies, readings, ScaleEntry(s.workload.name, current)), readings) == Some(w)
    ensures TargetWrite(s, readings, w) && w.from == d.current && w.to == d.desired
    ensures w.from + l.upStep <= MAX_INT32 <==> WithinEnvelope(w, s.min, s.max, l.upStep)
  {
    forall d | d in s.dependencies
      ensures d.name != "target"
    {
      assert ValidDependency(d, s.workload.name);
    }
    TargetAt(s.dependencies, readings, ScaleEntry(s.workload.name, current));
    StepUpRaisesIffNoOverflow(TargetComponent(s, current), l.upStep);
  }

  lemma DependencyWriteIsSafe(d: Decision, s: OptiScalerSpec, l: Limits, readings: Readings, current: int32, w: Write,
      k: nat)
    requires ValidSpec(s) && l.upStep == s.policy.upStep && RaisesDependency(d, s, readings, l, k)
    requires WriteFor(d, Entries(s.dependencies, readings, ScaleEntry(s.workload.name, current)), readings) == Some(w)
    ensures DependencyWrite(s, readings, w, k) && w.from == d.current && w.to == d.desired
    ensures w.from + l.upStep <= MAX_INT32 <==>
      WithinEnvelope(w, s.dependencies[k].min, s.dependencies[k].max, l.upStep)
  {
    assert s.dependencies[k] in s.dependencies;
    assert ValidDependency(s.dependencies[k], s.workload.name);
    DependencyAt(s.dependencies, readings, ScaleEntry(s.workload.name, current), k);
    StepUpRaisesIffNoOverflow(ComponentOf(s.dependencies[k], ReadingAt(readings, k)), l.upStep);
  }

  // The write goes to one workload and carries what the decision says of it.
  ghost predicate IsWriteOf(s: OptiScalerSpec, readings: Readings, w: Write) {
    TargetWrite(s, readings, w) || exists k: nat :: DependencyWrite(s, readings, w, k)
  }

  // From a decision to the write.
  lemma WriteIsSafe(d: Decision, s: OptiScalerSpec, l: Limits, readings: Readings, current: int32, w: Write)
    requires ValidSpec(s) && readings.targetScale == Some(current) && l.upStep == s.policy.upStep
    requires RaisesOne(d, s, l, readings, current)
    requires WriteFor(d, Entries(s.dependencies, readings, ScaleEntry(s.workload.name, current)), readings) == Some(w)
    ensures !CoolingDown(l) && IsWriteOf(s, readings, w)
    ensures w.from + l.upStep <= MAX_INT32 ==> SafeWrite(s, readings, w)
    ensures w.from + l.upStep > MAX_INT32 ==> w.to < 0
  {
    if Raises(d, TargetComponent(s, current), l) {
      TargetWriteIsSafe(d, s, l, readings, current, w);
      StepUpRaisesIffNoOverflow(TargetComponent(s, current), l.upStep);
    } else {
      var k: nat :| RaisesDependency(d, s, readings, l, k);
      DependencyWriteIsSafe(d, s, l, readings, current, w, k);
      StepUpRaisesIffNoOverflow(ComponentOf(s.dependencies[k], ReadingAt(readings, k)), l.upStep);
    }
  }

  // Every reconcile writes at most one scale. If it writes one, the spec is
  // valid, no cooldown is running, and the write is a raise by 1..maxScaleUpStep
  // inside the bounds of the component it was decided for exactly when the replica count plus
  // the step fits in 32 bits; if it does not fit, the value written is negative.
  lemma OneWriteIsSafe(m: Histories, key: string, s: OptiScalerSpec, status: Status, readings: Readings, w: Write)
    requires WriteOf(m, key, s, status, readings) == Some(w)
    ensures Decides(s, readings) && !CoolingDown(LimitsOf(s, status, readings.now)) && IsWriteOf(s, readings, w)
    ensures SafeWrite(s, readings, w) <==> w.from + s.policy.upStep <= MAX_INT32
    ensures w.from + s.policy.upStep > MAX_INT32 ==> w.to < 0
  {
    var current, ready := readings.targetScale.value, readings.targetReady.value;
    var d := Predicted(m, key, s, status, readings, current, ready);
    GuardOnlyHolds(d, TargetSeen(s, readings, current, ready), current);
    PredictedRaisesOne(m, key, s, status, readings, current, ready);
    WriteIsSafe(d, s, LimitsOf(s, status, readings.now), readings, current, w);
  }

  // The write stays within the bounds of every component on its workload.
  predicate WithinWorkload(s: OptiScalerSpec, w: Write) {
    && (w.workload == s.workload.name ==> WithinEnvelope(w, s.min, s.max, s.policy.upStep))
    && forall k :: 0 <= k < |s.dependencies| && s.dependencies[k].workload.name == w.workload ==>
        WithinEnvelope(w, s.dependencies[k].min, s.dependencies[k].max, s.policy.upStep)
  }

  // If no two dependencies share a workload, a safe write is within the bounds of
  // its workload, whichever component it was decided for.
  lemma SafeForItsWorkload(s: OptiScalerSpec, readings: Readings, w: Write)
    requires ValidSpec(s) && DistinctWorkloads(s.dependencies) && SafeWrite(s, readings, w)
    ensures WithinWorkload(s, w)
  {
    forall d | d in s.dependencies
      ensures d.workload.name != s.workload.name
    {
      assert ValidDependency(d, s.workload.name);
    }
    if !(TargetWrite(s, readings, w) && WithinEnvelope(w, s.min, s.max, s.policy.upStep)) {
      var k: nat :| DependencyWrite(s, readings, w, k)
        && WithinEnvelope(w, s.dependencies[k].min, s.dependencies[k].max, s.policy.upStep);
      assert s.dependencies[k] in s.dependencies;
    }
  }

  // Which verdict is behind which write.
  lemma ActionFollowsVerdict(s: OptiScalerSpec, status: Status, readings: Readings, current: int32, ready: int32)
    requires ValidSpec(s)
    ensures
      var d := Reactive(s, status, readings, current, ready);
      var analysis := AnalysisOf(SnapshotOf(s, readings, current, ready));
      && (d.action.ScaleTarget? ==> analysis.classification.TargetSaturated? && d.chosen == "target")
      && (d.action.ScaleDependency? ==> analysis.classification.DependencySaturated? && d.chosen == analysis.component)
  {
    var input := CapacityInputOf(s, status, readings, current, ready);
    if input.analysis.classification.DependencySaturated? {
      var k := BottleneckIndex(s, readings, current, ready);
      DependencyAt(s.dependencies, readings, ScaleEntry("", 0), k);
    }
    VerdictBehind(input);
  }

  lemma VerdictBehind(input: CapacityInput)
    requires input.analysis.classification.DependencySaturated? ==>
      && input.analysis.component in input.dependencies
      && input.dependencies[input.analysis.component].name == input.analysis.component != input.target.name
    ensures var d := EvaluateCapacity(input);
      && (d.action.ScaleTarget? ==> input.analysis.classification.TargetSaturated? && d.chosen == input.target.name)
      && (d.action.ScaleDependency? ==>
        input.analysis.classification.DependencySaturated? && d.chosen == input.analysis.component)
  {
    CapacityDecision(input);
  }

  // A decision that scales is the reactive one, or a prescale of the target.
  lemma ScalingDecision(m: Histories, key: string, s: OptiScalerSpec, status: Status, readings: Readings,
      current: int32, ready: int32)
    requires ValidSpec(s) && Scales(Predicted(m, key, s, status, readings, current, ready).action)
    ensures var d := Predicted(m, key, s, status, readings, current, ready);
      && (d.action.ScaleDependency? ==> d == Reactive(s, status, readings, current, ready))
      && (!d.action.ScaleDependency? ==> d.chosen == "target")
  {
    if s.prediction.enabled {
      var i := InputsOf(s, status, readings, current, ready);
      var entry := P.HistoriesAfter(m, key, i);
      ReactiveNeverPrescales(s, status, readings, current, ready);
      PredictionRaises(i, entry.demand, entry.capacity);
    }
    ActionFollowsVerdict(s, status, readings, current, ready);
  }

  // The scale that is written belongs to the bottleneck: the configured
  // dependency the analysis names, or else the target.
  lemma BottleneckIsWritten(m: Histories, key: string, s: OptiScalerSpec, status: Status, readings: Readings, w: Write)
    returns (k: nat)
    requires WriteOf(m, key, s, status, readings) == Some(w)
    ensures Decides(s, readings)
    ensures var d := DecisionOf(m, key, s, status, readings);
      var analysis := AnalysisOf(SnapshotOf(s, readings, readings.targetScale.value, readings.targetReady.value));
      && (d.action.ScaleDependency? ==>
          && analysis.classification.DependencySaturated?
          && DependencyWrite(s, readings, w, k) && s.dependencies[k].name == analysis.component)
      && (!d.action.ScaleDependency? ==> TargetWrite(s, readings, w))
  {
    var current, ready := readings.targetScale.value, readings.targetReady.value;
    var d := Predicted(m, key, s, status, readings, current, ready);
    var l := LimitsOf(s, status, readings.now);
    GuardOnlyHolds(d, TargetSeen(s, readings, current, ready), current);
    ScalingDecision(m, key, s, status, readings, current, ready);
    PredictedRaisesOne(m, key, s, status, readings, current, ready);
    ActionFollowsVerdict(s, status, readings, current, ready);
    k := WrittenIndex(d, s, l, readings, current, w);
  }

  lemma WrittenIndex(d: Decision, s: OptiScalerSpec, l: Limits, readings: Readings, current: int32, w: Write)
    returns (k: nat)
    requires ValidSpec(s) && readings.targetScale == Some(current) && l.upStep == s.policy.upStep
    requires RaisesOne(d, s, l, readings, current)
    requires WriteFor(d, Entries(s.dependencies, readings, ScaleEntry(s.workload.name, current)), readings) == Some(w)
    ensures d.chosen == "target" ==> TargetWrite(s, readings, w)
    ensures d.chosen != "target" ==> DependencyWrite(s, readings, w, k) && s.dependencies[k].name == d.chosen
  {
    if Raises(d, TargetComponent(s, current), l) {
      TargetWriteIsSafe(d, s, l, readings, current, w);
      k := 0;
    } else {
      k :| RaisesDependency(d, s, readings, l, k);
      DependencyWriteIsSafe(d, s, l, readings, current, w, k);
      assert s.dependencies[k] in s.dependencies;
    }
  }

  // ----- No target scaling on unrealized capacity -----

  // All Ready replicas of the target, at least one, serve traffic.
  predicate Realized(readings: Readings, ready: int32) {
    ready >= 1 && EffectiveReplicaCount(readings.effective, ready) == Some(ready)
  }

  lemma MeasuredAndNotPending(t: TargetObservation)
    requires t.readyReplicas >= 1 && EffectiveReplicaCount(t.effectiveServingReplicas, t.readyReplicas).Some?
      && !RealizationPending(t)
    ensures EffectiveReplicaCount(t.effectiveServingReplicas, t.readyReplicas) == Some(t.readyReplicas)
  {
    var count := EffectiveReplicaCount(t.effectiveServingReplicas, t.readyReplicas).value;
    EffectiveCountIff(t.effectiveServingReplicas, t.readyReplicas, count);
  }

  lemma TargetVerdictMeasured(snapshot: Snapshot)
    requires AnalysisOf(snapshot).classification.TargetSaturated?
    ensures TargetMeasured(snapshot)
  {
  }

  lemma ReactiveTargetRealized(s: OptiScalerSpec, status: Status, readings: Readings, current: int32, ready: int32)
    requires ValidSpec(s) && Reactive(s, status, readings, current, ready).action.ScaleTarget?
    requires !RealizationPending(TargetSeen(s, readings, current, ready))
    ensures Realized(readings, ready)
  {
    ActionFollowsVerdict(s, status, readings, current, ready);
    TargetVerdictMeasured(SnapshotOf(s, readings, current, ready));
    MeasuredAndNotPending(TargetSeen(s, readings, current, ready));
  }

  lemma PrescaleRealized(m: Histories, key: string, s: OptiScalerSpec, status: Status, readings: Readings,
      current: int32, ready: int32)
    requires s.prediction.enabled && Predicted(m, key, s, status, readings, current, ready).action.PrescaleTarget?
    ensures Realized(readings, ready) && ready == current
    ensures R.ReadinessOf(readings.view).Some? && R.ReadinessOf(readings.view).value.ready == ready
  {
    var i := InputsOf(s, status, readings, current, ready);
    var entry := P.HistoriesAfter(m, key, i);
    ReactiveNeverPrescales(s, status, readings, current, ready);
    P.AcceptedObservation(i, entry.demand, entry.capacity);
  }

  lemma PredictedIsReactiveOrPrescale(m: Histories, key: string, s: OptiScalerSpec, status: Status, readings: Readings,
      current: int32, ready: int32)
    requires Predicted(m, key, s, status, readings, current, ready).action.ScaleTarget?
    ensures Predicted(m, key, s, status, readings, current, ready) == Reactive(s, status, readings, current, ready)
  {
    if s.prediction.enabled {
      var i := InputsOf(s, status, readings, current, ready);
      var entry := P.HistoriesAfter(m, key, i);
      ReactiveNeverPrescales(s, status, readings, current, ready);
      PredictionRaises(i, entry.demand, entry.capacity);
    }
  }

  // A decision to scale the target means that every Ready replica is serving; a
  // prescale also means that every requested replica is Ready, by the Deployment
  // and by the pod list. (A reactive scale says nothing about requested ones.)
  lemma TargetScalingIsRealized(m: Histories, key: string, s: OptiScalerSpec, status: Status, readings: Readings)
    requires Decides(s, readings) && DecisionOf(m, key, s, status, readings).action in {ScaleTarget, PrescaleTarget}
    ensures Realized(readings, readings.targetReady.value)
    ensures DecisionOf(m, key, s, status, readings).action.PrescaleTarget? ==>
      && readings.targetReady == readings.targetScale
      && R.ReadinessOf(readings.view).Some? && R.ReadinessOf(readings.view).value.ready == readings.targetReady.value
  {
    var current, ready := readings.targetScale.value, readings.targetReady.value;
    var d := Predicted(m, key, s, status, readings, current, ready);
    GuardOnlyHolds(d, TargetSeen(s, readings, current, ready), current);
    if d.action.PrescaleTarget? {
      ReactiveNeverPrescales(s, status, readings, current, ready);
      PrescaleRealized(m, key, s, status, readings, current, ready);
    } else {
      PredictedIsReactiveOrPrescale(m, key, s, status, readings, current, ready);
      NotPendingTarget(d, TargetSeen(s, readings, current, ready), current);
      ReactiveTargetRealized(s, status, readings, current, ready);
    }
  }

  lemma NotPendingTarget(d: Decision, t: TargetObservation, requested: int32)
    requires d.action.ScaleTarget? && d.chosen == "target" && HoldUnrealized(d, t, requested) == d
    ensures !RealizationPending(t)
  {
  }
}
