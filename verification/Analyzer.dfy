// Bottleneck attribution over the DependsOn graph (internal/capacity/analyzer.go).
module Analyzer {
  import opened Values
  import opened Observation

  datatype Classification = Healthy | TargetSaturated | DependencySaturated | CapacityBlocked | Uncertain

  datatype Confidence = Low | Medium | High

  datatype Analysis = Analysis(classification: Classification, component: string, confidence: Confidence)

  function UncertainAbout(component: string): Analysis {
    Analysis(Uncertain, component, Low)
  }

  // ----- Specification -----

  predicate TargetMeasured(s: Snapshot) {
    && Usable(s.target.p95Latency) && Usable(s.target.hottestReplicaOccupancy)
    && Usable(s.target.effectiveServingReplicas)
    && EffectiveReplicaCount(s.target.effectiveServingReplicas, s.target.readyReplicas).Some?
    && s.target.readyReplicas > 0
  }

  predicate TargetLimitsValid(t: TargetObservation) {
    && FiniteNonnegative(t.safeOperatingOccupancy) && t.safeOperatingOccupancy.v > 0.0
    && FiniteNonnegative(t.physicalConcurrencyLimit) && t.physicalConcurrencyLimit.v >= t.safeOperatingOccupancy.v
  }

  predicate Complete(d: DependencyObservation) {
    && Usable(d.p95Latency) && Usable(d.utilization)
    && FiniteNonnegative(d.latencyThreshold) && FiniteNonnegative(d.utilizationThreshold)
  }

  predicate AllComplete(deps: seq<DependencyObservation>) {
    forall d :: d in deps ==> Complete(d)
  }

  function FirstIncomplete(deps: seq<DependencyObservation>): DependencyObservation
    requires !AllComplete(deps)
  {
    if !Complete(deps[0]) then deps[0] else FirstIncomplete(deps[1..])
  }

  predicate LatencyExceeded(d: DependencyObservation) {
    Greater(d.p95Latency.value, d.latencyThreshold)
  }

  predicate UtilizationExceeded(d: DependencyObservation) {
    Greater(d.utilization.value, d.utilizationThreshold)
  }

  predicate Saturated(d: DependencyObservation) {
    LatencyExceeded(d) || UtilizationExceeded(d)
  }

  function SaturatedNames(deps: seq<DependencyObservation>): set<string> {
    set d | d in deps && Saturated(d) :: d.name
  }

  // A saturated dependency whose saturation is not explained by a saturated
  // dependency right behind it.
  function RootAmong(saturated: set<string>): DependencyObservation -> bool {
    (d: DependencyObservation) =>
      && d.name in saturated
      && !(d.dependsOn != "" && d.dependsOn in saturated && AtMost(d.utilization.value, d.utilizationThreshold))
  }

  function Roots(deps: seq<DependencyObservation>): seq<DependencyObservation> {
    Filter(deps, RootAmong(SaturatedNames(deps)))
  }

  function Attribution(root: DependencyObservation): Analysis {
    Analysis(
      if root.scalable then DependencySaturated else CapacityBlocked,
      root.name,
      if LatencyExceeded(root) != UtilizationExceeded(root) then Medium else High)
  }

  function Attributed(deps: seq<DependencyObservation>): Analysis {
    var roots := Roots(deps);
    if |roots| > 1 then UncertainAbout("multiple dependencies")
    else if |roots| == 1 then Attribution(roots[0])
    else UncertainAbout("target")
  }

  predicate WithinSLO(s: Snapshot) {
    AtMost(s.target.p95Latency.value, s.sloTargetP95)
  }

  predicate TargetAtCapacity(t: TargetObservation) {
    AtMost(t.safeOperatingOccupancy, t.hottestReplicaOccupancy.value)
  }

  function AnalysisOf(s: Snapshot): Analysis {
    if !FiniteNonnegative(s.sloTargetP95) then UncertainAbout("invalid SLO target")
    else if !TargetMeasured(s) || !TargetLimitsValid(s.target) then UncertainAbout("target")
    else if !AllComplete(s.dependencies) then UncertainAbout(FirstIncomplete(s.dependencies).name)
    else if WithinSLO(s) then Analysis(Healthy, "target", High)
    else if TargetAtCapacity(s.target) then Analysis(TargetSaturated, "target", High)
    else Attributed(s.dependencies)
  }

  // ----- The analysis as the program runs it -----

  lemma {:induction false} FirstIncompleteAt(deps: seq<DependencyObservation>, i: nat)
    requires i < |deps| && !Complete(deps[i]) && forall j :: 0 <= j < i ==> Complete(deps[j])
    ensures !AllComplete(deps) && FirstIncomplete(deps) == deps[i]
  {
    assert deps[i] in deps;
    if i > 0 {
      FirstIncompleteAt(deps[1..], i - 1);
    }
  }

  // The first loop: stop at the first dependency without complete telemetry,
  // otherwise collect the names of the saturated ones.
  method CollectSaturated(deps: seq<DependencyObservation>) returns (incomplete: Option<string>, saturated: set<string>)
    ensures incomplete.None? <==> AllComplete(deps)
    ensures incomplete.Some? ==> incomplete.value == FirstIncomplete(deps).name
    ensures incomplete.None? ==> saturated == SaturatedNames(deps)
  {
    saturated := {};
    for i := 0 to |deps|
      invariant forall j :: 0 <= j < i ==> Complete(deps[j])
      invariant saturated == SaturatedNames(deps[..i])
    {
      var d := deps[i];
      assert deps[..i + 1] == deps[..i] + [d];
      if !Usable(d.p95Latency) || !Usable(d.utilization) || !FiniteNonnegative(d.latencyThreshold)
        || !FiniteNonnegative(d.utilizationThreshold) {
        FirstIncompleteAt(deps, i);
        return Some(d.name), saturated;
      }
      if Greater(d.p95Latency.value, d.latencyThreshold) || Greater(d.utilization.value, d.utilizationThreshold) {
        saturated := saturated + {d.name};
      }
    }
    assert deps[..|deps|] == deps;
    incomplete := None;
  }

  // The second loop.
  method CollectRoots(deps: seq<DependencyObservation>, saturated: set<string>)
    returns (roots: seq<DependencyObservation>)
    ensures roots == Filter(deps, RootAmong(saturated))
  {
    roots := [];
    for i := 0 to |deps|
      invariant roots == Filter(deps[..i], RootAmong(saturated))
    {
      var d := deps[i];
      assert deps[..i + 1][..i] == deps[..i];
      if d.name !in saturated {
        continue;
      }
      if d.dependsOn != "" {
        if d.dependsOn in saturated {
          if AtMost(d.utilization.value, d.utilizationThreshold) {
            continue;
          }
        }
      }
      roots := roots + [d];
    }
    assert deps[..|deps|] == deps;
  }

  method Analyze(s: Snapshot) returns (analysis: Analysis)
    ensures analysis == AnalysisOf(s)
    ensures analysis.classification.TargetSaturated? ==>
      && s.target.p95Latency.value.v > s.sloTargetP95.v
      && s.target.hottestReplicaOccupancy.value.v >= s.target.safeOperatingOccupancy.v
  {
    if !FiniteNonnegative(s.sloTargetP95) {
      return UncertainAbout("invalid SLO target");
    }
    if !Usable(s.target.p95Latency) || !Usable(s.target.hottestReplicaOccupancy)
      || !Usable(s.target.effectiveServingReplicas) {
      return UncertainAbout("target");
    }
    if EffectiveReplicaCount(s.target.effectiveServingReplicas, s.target.readyReplicas).None?
      || s.target.readyReplicas <= 0 {
      return UncertainAbout("target");
    }
    if !TargetLimitsValid(s.target) {
      return UncertainAbout("target");
    }
    var incomplete, saturated := CollectSaturated(s.dependencies);
    if incomplete.Some? {
      return UncertainAbout(incomplete.value);
    }
    if AtMost(s.target.p95Latency.value, s.sloTargetP95) {
      return Analysis(Healthy, "target", High);
    }
    if AtMost(s.target.safeOperatingOccupancy, s.target.hottestReplicaOccupancy.value) {
      return Analysis(TargetSaturated, "target", High);
    }
    var roots := CollectRoots(s.dependencies, saturated);
    if |roots| > 1 {
      return UncertainAbout("multiple dependencies");
    }
    if |roots| == 1 {
      return Attribution(roots[0]);
    }
    return UncertainAbout("target");
  }

  // ----- Attribution over the graph -----

  // a is configured to depend on b.
  predicate Edge(deps: seq<DependencyObservation>, a: string, b: string) {
    b != "" && exists d :: d in deps && d.name == a && d.dependsOn == b
  }

  predicate Chain(deps: seq<DependencyObservation>, p: seq<string>) {
    |p| > 0 && forall i :: 0 <= i < |p| - 1 ==> Edge(deps, p[i], p[i + 1])
  }

  ghost predicate Cyclic(deps: seq<DependencyObservation>) {
    exists p :: Chain(deps, p) && |p| > 1 && p[0] == Last(p)
  }

  predicate Through(p: seq<string>, names: set<string>) {
    forall n :: n in p ==> n in names
  }

  predicate Distinct(p: seq<string>) {
    forall i, j :: 0 <= i < j < |p| ==> p[i] != p[j]
  }

  // Pigeonhole: distinct names drawn from a finite set.
  lemma {:induction false} DistinctFits(p: seq<string>, names: set<string>)
    requires Distinct(p) && Through(p, names)
    ensures |p| <= |names|
  {
    if |p| > 0 {
      var front := p[..|p| - 1];
      assert forall n :: n in front ==> n in p && n != Last(p);
      assert Last(p) in p;
      DistinctFits(front, names - {Last(p)});
    }
  }

  // The chain runs through saturated dependencies only and ends at a root.
  predicate Attributes(deps: seq<DependencyObservation>, p: seq<string>, root: DependencyObservation) {
    Chain(deps, p) && Through(p, SaturatedNames(deps)) && root in Roots(deps) && Last(p) == root.name
  }

  ghost predicate Explains(deps: seq<DependencyObservation>, a: string, root: DependencyObservation) {
    exists p :: Attributes(deps, p, root) && p[0] == a
  }

  // Following DependsOn from a saturated dependency through saturated ones ends
  // at a root candidate or closes a cycle.
  lemma {:induction false} Chase(deps: seq<DependencyObservation>, p: seq<string>)
    returns (q: seq<string>, root: Option<DependencyObservation>)
    requires AllComplete(deps) && Chain(deps, p) && Through(p, SaturatedNames(deps)) && Distinct(p)
    ensures p <= q
    ensures root.Some? ==> Attributes(deps, q, root.value)
    ensures root.None? ==> Cyclic(deps)
    decreases |SaturatedNames(deps)| - |p|
  {
    var names := SaturatedNames(deps);
    assert Last(p) in p;
    var d :| d in deps && Saturated(d) && d.name == Last(p);
    FilterMember(deps, RootAmong(names), d);
    if RootAmong(names)(d) {
      return p, Some(d);
    }
    var next := d.dependsOn;
    assert Edge(deps, Last(p), next);
    if next in p {
      var i :| 0 <= i < |p| && p[i] == next;
      var cycle := p[i..] + [next];
      assert Chain(deps, cycle) && cycle[0] == Last(cycle);
      return p, None;
    }
    DistinctFits(p + [next], names);
    q, root := Chase(deps, p + [next]);
  }

  // Saturation without any root candidate needs a DependsOn cycle.
  lemma NoRootMeansCycle(deps: seq<DependencyObservation>)
    requires AllComplete(deps) && SaturatedNames(deps) != {} && Roots(deps) == []
    ensures Cyclic(deps)
  {
    var a :| a in SaturatedNames(deps);
    var q, root := Chase(deps, [a]);
  }

  // In an acyclic graph a single candidate explains all of the saturation.
  lemma SingleRootExplainsAll(deps: seq<DependencyObservation>, a: string)
    requires AllComplete(deps) && !Cyclic(deps) && |Roots(deps)| == 1 && a in SaturatedNames(deps)
    ensures Explains(deps, a, Roots(deps)[0])
  {
    var q, root := Chase(deps, [a]);
    assert q[0] == a && Attributes(deps, q, Roots(deps)[0]);
  }

  // What an attribution to a dependency means for the whole analysis: the target
  // itself is not at capacity, the component is saturated, nothing right behind
  // it explains that unless it also exceeds its own utilization threshold, and
  // without cycles every saturated dependency leads to it.
  lemma AttributionIsJustified(s: Snapshot)
    requires AnalysisOf(s).classification in {DependencySaturated, CapacityBlocked}
    ensures AllComplete(s.dependencies) && |Roots(s.dependencies)| == 1
    ensures s.target.p95Latency.value.Finite? && s.sloTargetP95.Finite?
      && s.target.p95Latency.value.v > s.sloTargetP95.v
    ensures s.target.hottestReplicaOccupancy.value.Finite? && s.target.safeOperatingOccupancy.Finite?
      && s.target.hottestReplicaOccupancy.value.v < s.target.safeOperatingOccupancy.v
    ensures var root := Roots(s.dependencies)[0];
      && root in s.dependencies && root.name == AnalysisOf(s).component && root.name in SaturatedNames(s.dependencies)
      && (AnalysisOf(s).classification.DependencySaturated? <==> root.scalable)
      && (root.dependsOn != "" && root.dependsOn in SaturatedNames(s.dependencies) ==> UtilizationExceeded(root))
    ensures !Cyclic(s.dependencies) ==> forall a :: a in SaturatedNames(s.dependencies) ==>
      Explains(s.dependencies, a, Roots(s.dependencies)[0])
  {
    var deps := s.dependencies;
    var root := Roots(deps)[0];
    FilterMember(deps, RootAmong(SaturatedNames(deps)), root);
    if !Cyclic(deps) {
      forall a | a in SaturatedNames(deps)
        ensures Explains(deps, a, root)
      {
        SingleRootExplainsAll(deps, a);
      }
    }
  }

  // A violated SLO with complete telemetry and an unsaturated target is left
  // unexplained only if no dependency is saturated, several are independently
  // so, or the configured dependencies form a cycle.
  lemma UnexplainedViolation(s: Snapshot)
    requires FiniteNonnegative(s.sloTargetP95) && TargetMeasured(s) && TargetLimitsValid(s.target)
      && AllComplete(s.dependencies)
    requires AnalysisOf(s).classification.Uncertain?
    ensures s.target.p95Latency.value.v > s.sloTargetP95.v
    ensures s.target.hottestReplicaOccupancy.value.v < s.target.safeOperatingOccupancy.v
    ensures SaturatedNames(s.dependencies) == {} || |Roots(s.dependencies)| > 1 || Cyclic(s.dependencies)
  {
    if SaturatedNames(s.dependencies) != {} && Roots(s.dependencies) == [] {
      NoRootMeansCycle(s.dependencies);
    }
  }

  // Medium when only one of the two signals is above its threshold.
  predicate IsCertain(d: DependencyObservation, confidence: Confidence)
    requires Complete(d)
  {
    var slow := d.p95Latency.value.v > d.latencyThreshold.v;
    var busy := d.utilization.value.v > d.utilizationThreshold.v;
    confidence == if slow == busy then High else Medium
  }

  // The component and the confidence of every verdict. A named dependency is certain
  // when both its latency and its utilization are above their thresholds.
  lemma ComponentAndConfidence(s: Snapshot)
    ensures var a, deps := AnalysisOf(s), s.dependencies;
      match a.classification
      case Healthy => a.component == "target" && a.confidence == High
      case TargetSaturated => a.component == "target" && a.confidence == High
      case Uncertain => a.confidence == Low
      case _ => exists d :: d in deps && d.name == a.component && Complete(d) && IsCertain(d, a.confidence)
  {
    if AnalysisOf(s).classification in {DependencySaturated, CapacityBlocked} {
      AttributionIsJustified(s);
      var root := Roots(s.dependencies)[0];
      FilterMember(s.dependencies, RootAmong(SaturatedNames(s.dependencies)), root);
      assert root in s.dependencies && Complete(root);
      assert IsCertain(root, AnalysisOf(s).confidence);
    }
  }

  // ----- The order of the dependencies does not matter -----

  lemma SaturatedNamesPermutation(deps: seq<DependencyObservation>, other: seq<DependencyObservation>)
    requires multiset(deps) == multiset(other)
    ensures SaturatedNames(deps) == SaturatedNames(other) && AllComplete(deps) == AllComplete(other)
  {
    forall d
      ensures d in deps <==> d in other
    {
      PermutationMember(deps, other, d);
    }
  }

  // Reordering the dependencies keeps the classification and the confidence, and
  // the component too unless the verdict is UNCERTAIN.
  lemma AnalysisIsOrderIndependent(s: Snapshot, other: seq<DependencyObservation>)
    requires multiset(s.dependencies) == multiset(other)
    ensures var a, b := AnalysisOf(s), AnalysisOf(s.(dependencies := other));
      && a.classification == b.classification && a.confidence == b.confidence
      && (!a.classification.Uncertain? ==> a == b)
  {
    var deps := s.dependencies;
    SaturatedNamesPermutation(deps, other);
    FilterPermutation(deps, other, RootAmong(SaturatedNames(deps)));
    if |Roots(deps)| == 1 {
      assert Roots(deps)[0] in multiset(Roots(deps));
      assert Roots(deps) == [Roots(deps)[0]] && Roots(other) == [Roots(other)[0]];
      assert multiset(Roots(other)) == multiset{Roots(other)[0]};
    }
  }
}
