// A DependsOn cycle is exactly what attribution to a root cannot cope with: the
// configured graph is acyclic if and only if no telemetry leaves saturation
// without a root candidate.
module AttributionCycles {
  import opened Values
  import opened Observation
  import opened Analyzer

  predicate UniqueNames(deps: seq<DependencyObservation>) {
    forall d, e :: d in deps && e in deps && d.name == e.name ==> d == e
  }

  predicate ThresholdsValid(deps: seq<DependencyObservation>) {
    forall d :: d in deps ==> FiniteNonnegative(d.latencyThreshold) && FiniteNonnegative(d.utilizationThreshold)
  }

  // Two observations of one configured dependency: only telemetry differs.
  predicate SameDependency(d: DependencyObservation, e: DependencyObservation) {
    e == d.(p95Latency := e.p95Latency, utilization := e.utilization)
  }

  predicate SameConfiguration(deps: seq<DependencyObservation>, other: seq<DependencyObservation>) {
    |deps| == |other| && forall i :: 0 <= i < |deps| ==> SameDependency(deps[i], other[i])
  }

  // ----- The graph is configuration -----

  lemma SameEdge(deps: seq<DependencyObservation>, other: seq<DependencyObservation>, a: string, b: string)
    requires SameConfiguration(deps, other) && Edge(deps, a, b)
    ensures Edge(other, a, b)
  {
    var d :| d in deps && d.name == a && d.dependsOn == b;
    var i :| 0 <= i < |deps| && deps[i] == d;
    assert SameDependency(deps[i], other[i]);
    assert other[i] in other;
  }

  lemma SameCycles(deps: seq<DependencyObservation>, other: seq<DependencyObservation>)
    requires SameConfiguration(deps, other) && Cyclic(deps)
    ensures Cyclic(other)
  {
    var p :| Chain(deps, p) && |p| > 1 && p[0] == Last(p);
    forall i | 0 <= i < |p| - 1
      ensures Edge(other, p[i], p[i + 1])
    {
      SameEdge(deps, other, p[i], p[i + 1]);
    }
    assert Chain(other, p);
  }

  lemma SameConfigurationBack(deps: seq<DependencyObservation>, other: seq<DependencyObservation>)
    requires SameConfiguration(deps, other)
    ensures SameConfiguration(other, deps)
  {
    forall i | 0 <= i < |deps|
      ensures SameDependency(other[i], deps[i])
    {
      assert SameDependency(deps[i], other[i]);
    }
  }

  // ----- Telemetry that loads exactly a cycle, by latency alone -----

  function Reading(v: real): Metric {
    Metric(Finite(v), SECOND, true, true)
  }

  function Loaded(d: DependencyObservation, busy: bool): DependencyObservation
    requires FiniteNonnegative(d.latencyThreshold)
  {
    d.(p95Latency := Reading(if busy then d.latencyThreshold.v + 1.0 else 0.0), utilization := Reading(0.0))
  }

  function LoadedOn(deps: seq<DependencyObservation>, p: seq<string>): seq<DependencyObservation>
    requires ThresholdsValid(deps)
  {
    seq(|deps|, i requires 0 <= i < |deps| => Loaded(deps[i], deps[i].name in p))
  }

  lemma LoadedFacts(d: DependencyObservation, busy: bool)
    requires FiniteNonnegative(d.latencyThreshold) && FiniteNonnegative(d.utilizationThreshold)
    ensures var e := Loaded(d, busy);
      && SameDependency(d, e) && Complete(e) && AtMost(e.utilization.value, e.utilizationThreshold)
      && (Saturated(e) <==> busy)
  {
  }

  lemma LoadedTelemetry(deps: seq<DependencyObservation>, p: seq<string>)
    requires ThresholdsValid(deps)
    ensures var other := LoadedOn(deps, p);
      && SameConfiguration(deps, other) && AllComplete(other)
      && (forall e :: e in other ==>
        AtMost(e.utilization.value, e.utilizationThreshold) && (Saturated(e) <==> e.name in p))
  {
    forall i | 0 <= i < |deps|
      ensures SameDependency(deps[i], Loaded(deps[i], deps[i].name in p))
        && Complete(Loaded(deps[i], deps[i].name in p))
      ensures var e := Loaded(deps[i], deps[i].name in p);
        AtMost(e.utilization.value, e.utilizationThreshold) && (Saturated(e) <==> e.name in p)
    {
      assert deps[i] in deps;
      LoadedFacts(deps[i], deps[i].name in p);
    }
  }

  predicate IsCycle(deps: seq<DependencyObservation>, p: seq<string>) {
    Chain(deps, p) && |p| > 1 && p[0] == Last(p)
  }

  // From a name on the cycle, DependsOn stays on the cycle.
  lemma CycleGoesOn(deps: seq<DependencyObservation>, p: seq<string>, d: DependencyObservation)
    requires IsCycle(deps, p) && UniqueNames(deps) && d in deps && d.name in p
    ensures d.dependsOn != "" && d.dependsOn in p
  {
    var i :| 0 <= i < |p| && p[i] == d.name;
    var k := if i == |p| - 1 then 0 else i;
    assert Edge(deps, p[k], p[k + 1]);
    var e :| e in deps && e.name == p[k] && e.dependsOn == p[k + 1];
    assert e == d;
  }

  // Every name on the cycle belongs to a dependency.
  lemma CycleIsConfigured(deps: seq<DependencyObservation>, p: seq<string>, n: string)
    returns (d: DependencyObservation)
    requires IsCycle(deps, p) && n in p
    ensures d in deps && d.name == n
  {
    var i :| 0 <= i < |p| && p[i] == n;
    var k := if i == |p| - 1 then 0 else i;
    assert Edge(deps, p[k], p[k + 1]);
    d :| d in deps && d.name == p[k] && d.dependsOn == p[k + 1];
  }

  lemma UniqueInOther(deps: seq<DependencyObservation>, other: seq<DependencyObservation>, p: seq<string>)
    requires UniqueNames(deps) && ThresholdsValid(deps) && other == LoadedOn(deps, p)
    ensures UniqueNames(other)
  {
    forall d, e | d in other && e in other && d.name == e.name
      ensures d == e
    {
      var i :| 0 <= i < |other| && other[i] == d;
      var j :| 0 <= j < |other| && other[j] == e;
      assert deps[i] in deps && deps[j] in deps;
    }
  }

  lemma NobodyIsRoot(other: seq<DependencyObservation>, p: seq<string>)
    requires IsCycle(other, p) && UniqueNames(other)
    requires forall e :: e in other ==>
      AtMost(e.utilization.value, e.utilizationThreshold) && (Saturated(e) <==> e.name in p)
    ensures SaturatedNames(other) != {} && Roots(other) == []
  {
    var names := SaturatedNames(other);
    forall n | n in p
      ensures n in names
    {
      var d := CycleIsConfigured(other, p, n);
    }
    assert p[0] in p && p[0] in names;
    forall d | d in other
      ensures !RootAmong(names)(d)
    {
      if d.name in names {
        var e :| e in other && Saturated(e) && e.name == d.name;
        CycleGoesOn(other, p, d);
      }
    }
    FilterNothing(other, RootAmong(names));
  }

  // Telemetry of the same configuration that saturates and has no candidate.
  predicate Unattributable(deps: seq<DependencyObservation>, other: seq<DependencyObservation>) {
    SameConfiguration(deps, other) && AllComplete(other) && SaturatedNames(other) != {} && Roots(other) == []
  }

  lemma CycleCanHide(deps: seq<DependencyObservation>) returns (other: seq<DependencyObservation>)
    requires UniqueNames(deps) && ThresholdsValid(deps) && Cyclic(deps)
    ensures Unattributable(deps, other)
  {
    var p :| Chain(deps, p) && |p| > 1 && p[0] == Last(p);
    other := LoadedOn(deps, p);
    LoadedTelemetry(deps, p);
    forall i | 0 <= i < |p| - 1
      ensures Edge(other, p[i], p[i + 1])
    {
      SameEdge(deps, other, p[i], p[i + 1]);
    }
    UniqueInOther(deps, other, p);
    NobodyIsRoot(other, p);
  }

  // The configured graph has a cycle exactly when some telemetry saturates a
  // dependency and leaves no root candidate.
  lemma CyclicIffUnattributable(deps: seq<DependencyObservation>)
    requires UniqueNames(deps) && ThresholdsValid(deps)
    ensures Cyclic(deps) <==> exists other :: Unattributable(deps, other)
  {
    if Cyclic(deps) {
      var other := CycleCanHide(deps);
    } else if other :| Unattributable(deps, other) {
      NoRootMeansCycle(other);
      SameConfigurationBack(deps, other);
      SameCycles(other, deps);
    }
  }

  // For a whole snapshot: with a violated SLO, a measured target below capacity
  // and a cycle in the configuration, some telemetry of the dependencies leaves
  // the violation unexplained although a dependency is saturated.
  lemma CycleHidesTheBottleneck(s: Snapshot) returns (other: seq<DependencyObservation>)
    requires FiniteNonnegative(s.sloTargetP95) && TargetMeasured(s) && TargetLimitsValid(s.target)
    requires !WithinSLO(s) && !TargetAtCapacity(s.target)
    requires UniqueNames(s.dependencies) && ThresholdsValid(s.dependencies) && Cyclic(s.dependencies)
    ensures SameConfiguration(s.dependencies, other) && SaturatedNames(other) != {}
    ensures AnalysisOf(s.(dependencies := other)) == UncertainAbout("target")
  {
    other := CycleCanHide(s.dependencies);
  }
}
