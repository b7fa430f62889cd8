// The verdict of the analysis in terms of a validated specification and of what
// the cluster and Prometheus answered, with the thresholds written out.
module VerdictLaws {
  import opened Values
  import opened Observation
  import opened Analyzer
  import opened Spec
  import opened Controller

  // The margin in force: what is configured, or three quarters.
  predicate IsMargin(s: OptiScalerSpec, m: real) {
    var margin := s.prediction.margin;
    if margin.Finite? && 0.0 < margin.v && margin.v <= 1.0 then m == margin.v else m == 0.75
  }

  // The hottest replica holds h slots: by its own metric, or none at all when that
  // has no value, nothing serves and no slot is held.
  predicate Hottest(readings: Readings, h: real) {
    || (Usable(readings.hottest) && readings.hottest.value.v == h)
    || (!readings.hottest.isValid && h == 0.0
        && readings.effective.isValid && readings.effective.value == Finite(0.0)
        && Usable(readings.aggregate) && readings.aggregate.value.v == 0.0)
  }

  lemma HottestIff(readings: Readings, h: real)
    ensures Usable(HottestOccupancy(readings)) && HottestOccupancy(readings).value.v == h <==> Hottest(readings, h)
  {
  }

  // The number of serving replicas is known and credible: a whole number of Ready
  // ones, and there is a Ready one.
  predicate ServingKnown(readings: Readings, ready: int32) {
    && Usable(readings.effective) && ready >= 1
    && var n := readings.effective.value.v; n.Floor as real == n && 0.0 <= n && n <= ready as real
  }

  // The dependency could be read.
  predicate Read(r: DependencyReading) {
    r.scale.Some? && Usable(r.latency) && Usable(r.utilization)
  }

  // Nothing the verdict needs is missing; the hottest replica holds h slots.
  ghost predicate Complete(s: OptiScalerSpec, readings: Readings, ready: int32, h: real) {
    && Usable(readings.p95) && Hottest(readings, h) && ServingKnown(readings, ready)
    && forall k :: 0 <= k < |s.dependencies| ==> Read(ReadingAt(readings, k))
  }

  // Dependency k is above one of its thresholds.
  predicate Overloaded(s: OptiScalerSpec, readings: Readings, k: nat) {
    && k < |s.dependencies|
    && var d, r := s.dependencies[k], ReadingAt(readings, k);
      && r.latency.value.Finite? && r.utilization.value.Finite?
      && d.latencyThreshold.Finite? && d.utilizationThreshold.Finite?
      && (r.latency.value.v > d.latencyThreshold.v || r.utilization.value.v > d.utilizationThreshold.v)
  }

  // Its own utilization is above the threshold.
  predicate Busy(s: OptiScalerSpec, readings: Readings, k: nat) {
    && k < |s.dependencies|
    && var d, r := s.dependencies[k], ReadingAt(readings, k);
      r.utilization.value.Finite? && d.utilizationThreshold.Finite? && r.utilization.value.v > d.utilizationThreshold.v
  }

  // Overloaded, and not merely slow because of an overloaded dependency behind it.
  ghost predicate Root(s: OptiScalerSpec, readings: Readings, k: nat) {
    && Overloaded(s, readings, k)
    && (Busy(s, readings, k)
        || !exists j: nat ::
          j < |s.dependencies| && s.dependencies[j].name == s.dependencies[k].dependsOn && Overloaded(s, readings, j))
  }

  ghost predicate OnlyRoot(s: OptiScalerSpec, readings: Readings, k: nat) {
    Root(s, readings, k) && forall j: nat :: j < |s.dependencies| && j != k ==> !Root(s, readings, j)
  }

  // ----- The filter behind the candidates -----

  lemma {:induction false} FilterOne<T>(q: seq<T>, p: T -> bool, k: nat)
    requires k < |q| && p(q[k]) && forall j :: 0 <= j < |q| && j != k ==> !p(q[j])
    ensures Filter(q, p) == [q[k]]
  {
    if k < |q| - 1 {
      FilterOne(q[..|q| - 1], p, k);
    } else {
      FilterNothing(q[..|q| - 1], p);
    }
  }

  lemma {:induction false} OneFiltered<T>(q: seq<T>, p: T -> bool) returns (k: nat)
    requires |Filter(q, p)| == 1
    ensures k < |q| && p(q[k]) && Filter(q, p) == [q[k]] && forall j :: 0 <= j < |q| && j != k ==> !p(q[j])
  {
    var front := q[..|q| - 1];
    if p(Last(q)) {
      k := |q| - 1;
      forall j | 0 <= j < |front|
        ensures !p(front[j])
      {
        FilterMember(front, p, front[j]);
      }
    } else {
      k := OneFiltered(front, p);
    }
  }

  // ----- From observations to readings -----

  lemma ObservedAt(s: OptiScalerSpec, readings: Readings, k: nat)
    requires ValidSpec(s) && k < |s.dependencies|
    ensures var deps := ObservedDependencies(s.dependencies, readings);
      && deps[k].name == s.dependencies[k].name && deps[k].dependsOn == s.dependencies[k].dependsOn
      && deps[k].scalable == s.dependencies[k].scalable && deps[k].name != ""
      && (Analyzer.Complete(deps[k]) <==> Read(ReadingAt(readings, k)))
      && (Read(ReadingAt(readings, k)) ==>
          && (Saturated(deps[k]) <==> Overloaded(s, readings, k))
          && (UtilizationExceeded(deps[k]) <==> Busy(s, readings, k)))
  {
    assert s.dependencies[k] in s.dependencies;
    assert ValidDependency(s.dependencies[k], s.workload.name);
  }

  lemma AllObserved(s: OptiScalerSpec, readings: Readings)
    requires ValidSpec(s)
    ensures AllComplete(ObservedDependencies(s.dependencies, readings)) <==>
      forall k :: 0 <= k < |s.dependencies| ==> Read(ReadingAt(readings, k))
  {
    var deps := ObservedDependencies(s.dependencies, readings);
    forall k | 0 <= k < |deps|
      ensures Analyzer.Complete(deps[k]) <==> Read(ReadingAt(readings, k))
    {
      ObservedAt(s, readings, k);
    }
    if AllComplete(deps) {
      forall k | 0 <= k < |deps|
        ensures Read(ReadingAt(readings, k))
      {
        assert deps[k] in deps;
      }
    }
  }

  ghost predicate AllRead(s: OptiScalerSpec, readings: Readings) {
    forall k :: 0 <= k < |s.dependencies| ==> Read(ReadingAt(readings, k))
  }

  lemma SaturatedName(s: OptiScalerSpec, readings: Readings, name: string)
    requires ValidSpec(s) && AllRead(s, readings)
    ensures name in SaturatedNames(ObservedDependencies(s.dependencies, readings)) <==>
      exists j: nat :: j < |s.dependencies| && s.dependencies[j].name == name && Overloaded(s, readings, j)
  {
    var deps := ObservedDependencies(s.dependencies, readings);
    if name in SaturatedNames(deps) {
      var d :| d in deps && Saturated(d) && d.name == name;
      var j :| 0 <= j < |deps| && deps[j] == d;
      ObservedAt(s, readings, j);
    }
    if j: nat :| j < |s.dependencies| && s.dependencies[j].name == name && Overloaded(s, readings, j) {
      ObservedAt(s, readings, j);
      assert deps[j] in deps;
    }
  }

  lemma RootIff(s: OptiScalerSpec, readings: Readings, k: nat)
    requires ValidSpec(s) && AllRead(s, readings) && k < |s.dependencies|
    ensures var deps := ObservedDependencies(s.dependencies, readings);
      RootAmong(SaturatedNames(deps))(deps[k]) <==> Root(s, readings, k)
  {
    ObservedAt(s, readings, k);
    SaturatedName(s, readings, s.dependencies[k].name);
    SaturatedName(s, readings, s.dependencies[k].dependsOn);
    NoEmptyName(s);
    if j: nat :|
      j < |s.dependencies| && s.dependencies[j].name == s.dependencies[k].name && Overloaded(s, readings, j)
    {
      assert j == k;
    }
  }

  lemma NoEmptyName(s: OptiScalerSpec)
    requires ValidSpec(s)
    ensures forall j: nat :: j < |s.dependencies| ==> s.dependencies[j].name != ""
  {
    forall j: nat | j < |s.dependencies|
      ensures s.dependencies[j].name != ""
    {
      assert s.dependencies[j] in s.dependencies;
      assert ValidDependency(s.dependencies[j], s.workload.name);
    }
  }

  // There is exactly one candidate, and it is dependency k.
  lemma CandidateIff(s: OptiScalerSpec, readings: Readings, k: nat)
    requires ValidSpec(s) && AllRead(s, readings) && k < |s.dependencies|
    ensures var deps := ObservedDependencies(s.dependencies, readings);
      |Roots(deps)| == 1 && Roots(deps)[0].name == s.dependencies[k].name <==> OnlyRoot(s, readings, k)
  {
    var deps := ObservedDependencies(s.dependencies, readings);
    var p := RootAmong(SaturatedNames(deps));
    forall j: nat | j < |deps|
      ensures p(deps[j]) <==> Root(s, readings, j)
    {
      RootIff(s, readings, j);
    }
    if OnlyRoot(s, readings, k) {
      FilterOne(deps, p, k);
    }
    if |Roots(deps)| == 1 && Roots(deps)[0].name == s.dependencies[k].name {
      var j := OneFiltered(deps, p);
      assert s.dependencies[j].name == s.dependencies[k].name;
      assert j == k;
    }
  }

  // ----- The verdict -----

  lemma SafeLimit(limit: real, m: real)
    requires limit >= 1.0 && 0.0 < m <= 1.0
    ensures 0.0 < limit * m <= limit
  {
    var rest := 1.0 - m;
    assert limit * rest >= 0.0;
    assert limit * m == limit - limit * rest;
  }

  lemma LimitsAreConfigured(s: OptiScalerSpec, readings: Readings, current: int32, ready: int32, m: real)
    requires ValidSpec(s) && IsMargin(s, m)
    ensures var t := TargetSeen(s, readings, current, ready);
      TargetLimitsValid(t) && t.safeOperatingOccupancy == Finite(s.metric.physicalLimit.v * m)
  {
    SafeLimit(s.metric.physicalLimit.v, m);
  }

  lemma ServingIff(readings: Readings, ready: int32)
    ensures Usable(readings.effective) && EffectiveReplicaCount(readings.effective, ready).Some? && ready > 0 <==>
      ServingKnown(readings, ready)
  {
    var count := EffectiveReplicaCount(readings.effective, ready);
    if count.Some? {
      EffectiveCountIff(readings.effective, ready, count.value);
    }
    if ServingKnown(readings, ready) {
      EffectiveCountIff(readings.effective, ready, readings.effective.value.v.Floor);
    }
  }

  // The telemetry tests of the analysis, all passed.
  predicate Measured(snapshot: Snapshot) {
    TargetMeasured(snapshot) && AllComplete(snapshot.dependencies)
  }

  lemma MeasuredIff(s: OptiScalerSpec, readings: Readings, current: int32, ready: int32, h: real)
    requires ValidSpec(s)
    ensures Measured(SnapshotOf(s, readings, current, ready)) && HottestOccupancy(readings).value == Finite(h) <==>
      Complete(s, readings, ready, h)
  {
    AllObserved(s, readings);
    ServingIff(readings, ready);
    HottestIff(readings, h);
  }

  // What the analysis says of a measured snapshot.
  lemma MeasuredVerdict(snapshot: Snapshot)
    requires FiniteNonnegative(snapshot.sloTargetP95) && TargetLimitsValid(snapshot.target)
    ensures var a, t, deps := AnalysisOf(snapshot), snapshot.target, snapshot.dependencies;
      if !Measured(snapshot) then a.classification.Uncertain?
      else if t.p95Latency.value.v <= snapshot.sloTargetP95.v then a.classification.Healthy?
      else if t.hottestReplicaOccupancy.value.v >= t.safeOperatingOccupancy.v then a.classification.TargetSaturated?
      else if |Roots(deps)| == 1 then
        && a.component == Roots(deps)[0].name
        && a.classification == if Roots(deps)[0].scalable then DependencySaturated else CapacityBlocked
      else a.classification.Uncertain?
  {
  }

  // The SLO is violated with complete telemetry, and the target is not the reason.
  ghost predicate Elsewhere(s: OptiScalerSpec, readings: Readings, ready: int32, m: real)
    requires ValidSpec(s)
  {
    exists h :: Complete(s, readings, ready, h) && readings.p95.value.v > s.sloTargetP95.v
      && h < s.metric.physicalLimit.v * m
  }

  // Healthy: everything is known and the latency is within the SLO.
  lemma HealthyIff(s: OptiScalerSpec, readings: Readings, current: int32, ready: int32)
    requires ValidSpec(s)
    ensures AnalysisOf(SnapshotOf(s, readings, current, ready)).classification.Healthy? <==>
      exists h :: Complete(s, readings, ready, h) && readings.p95.value.v <= s.sloTargetP95.v
  {
    var m := ConfiguredMargin(s.prediction.margin);
    LimitsAreConfigured(s, readings, current, ready, m);
    MeasuredVerdict(SnapshotOf(s, readings, current, ready));
    MeasuredIffSome(s, readings, current, ready);
  }

  lemma MeasuredIffSome(s: OptiScalerSpec, readings: Readings, current: int32, ready: int32)
    requires ValidSpec(s)
    ensures Measured(SnapshotOf(s, readings, current, ready)) <==> exists h :: Complete(s, readings, ready, h)
    ensures forall h :: Complete(s, readings, ready, h) ==> HottestOccupancy(readings).value == Finite(h)
  {
    forall h
      ensures Measured(SnapshotOf(s, readings, current, ready)) && HottestOccupancy(readings).value == Finite(h) <==>
        Complete(s, readings, ready, h)
    {
      MeasuredIff(s, readings, current, ready, h);
    }
    if Measured(SnapshotOf(s, readings, current, ready)) {
      assert Complete(s, readings, ready, HottestOccupancy(readings).value.v);
    }
  }

  // The target is saturated: the latency exceeds the SLO and the hottest replica
  // holds at least the margin's share of the slots one replica has.
  lemma TargetSaturatedIff(s: OptiScalerSpec, readings: Readings, current: int32, ready: int32, m: real)
    requires ValidSpec(s) && IsMargin(s, m)
    ensures AnalysisOf(SnapshotOf(s, readings, current, ready)).classification.TargetSaturated? <==>
      exists h :: Complete(s, readings, ready, h) && readings.p95.value.v > s.sloTargetP95.v
        && h >= s.metric.physicalLimit.v * m
  {
    LimitsAreConfigured(s, readings, current, ready, m);
    MeasuredVerdict(SnapshotOf(s, readings, current, ready));
    MeasuredIffSome(s, readings, current, ready);
  }

  // A dependency is named: the latency exceeds the SLO, the target is below that
  // share, and the dependency is the only candidate.
  lemma DependencyNamedIff(s: OptiScalerSpec, readings: Readings, current: int32, ready: int32, m: real, k: nat)
    requires ValidSpec(s) && IsMargin(s, m) && k < |s.dependencies|
    ensures var a := AnalysisOf(SnapshotOf(s, readings, current, ready));
      && (a.classification.DependencySaturated? && a.component == s.dependencies[k].name <==>
          Elsewhere(s, readings, ready, m) && OnlyRoot(s, readings, k) && s.dependencies[k].scalable)
      && (a.classification.CapacityBlocked? && a.component == s.dependencies[k].name <==>
          Elsewhere(s, readings, ready, m) && OnlyRoot(s, readings, k) && !s.dependencies[k].scalable)
  {
    LimitsAreConfigured(s, readings, current, ready, m);
    MeasuredVerdict(SnapshotOf(s, readings, current, ready));
    MeasuredIffSome(s, readings, current, ready);
    AllObserved(s, readings);
    if AllRead(s, readings) {
      CandidateIff(s, readings, k);
      CandidateScalable(s, readings, k);
    }
  }

  lemma CandidateScalable(s: OptiScalerSpec, readings: Readings, k: nat)
    requires ValidSpec(s) && AllRead(s, readings) && k < |s.dependencies|
    ensures var roots := Roots(ObservedDependencies(s.dependencies, readings));
      |roots| == 1 && roots[0].name == s.dependencies[k].name ==> roots[0].scalable == s.dependencies[k].scalable
  {
    var deps := ObservedDependencies(s.dependencies, readings);
    if |Roots(deps)| == 1 && Roots(deps)[0].name == s.dependencies[k].name {
      var j := OneFiltered(deps, RootAmong(SaturatedNames(deps)));
      assert s.dependencies[j].name == s.dependencies[k].name;
      assert j == k;
    }
  }
}
