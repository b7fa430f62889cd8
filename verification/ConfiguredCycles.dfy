// The cycle law of the analyzer, stated for specifications: what a configuration
// can lead to, whatever Prometheus answers.
module ConfiguredCycles {
  import opened Values
  import opened Observation
  import opened Analyzer
  import opened AttributionCycles
  import opened Spec
  import opened Controller
  import opened ControllerLaws

  // The configured graph, before anything is measured.
  function Graph(deps: seq<DependencySpec>): seq<DependencyObservation> {
    seq(|deps|, i requires 0 <= i < |deps| => ObservedDependency(deps[i], NO_READING))
  }

  lemma GraphIsUnread(s: OptiScalerSpec, base: Readings)
    requires ValidSpec(s)
    ensures AttributionCycles.UniqueNames(Graph(s.dependencies)) && ThresholdsValid(Graph(s.dependencies))
  {
    var unread := base.(dependencies := []);
    assert ObservedDependencies(s.dependencies, unread) == Graph(s.dependencies);
    ObservedGraphIsConfigured(s, unread);
  }

  lemma MeasuringKeepsConfiguration(deps: seq<DependencySpec>, readings: Readings)
    ensures SameConfiguration(Graph(deps), ObservedDependencies(deps, readings))
  {
  }

  // Readings under which the dependencies are observed as `other`.
  function Realizing(other: seq<DependencyObservation>): seq<DependencyReading> {
    seq(|other|, i requires 0 <= i < |other| => DependencyReading(Some(1), other[i].p95Latency, other[i].utilization))
  }

  lemma RealizedAs(deps: seq<DependencySpec>, base: Readings, other: seq<DependencyObservation>)
    requires SameConfiguration(Graph(deps), other)
    ensures ObservedDependencies(deps, base.(dependencies := Realizing(other))) == other
  {
    var observed := ObservedDependencies(deps, base.(dependencies := Realizing(other)));
    forall i | 0 <= i < |deps|
      ensures observed[i] == other[i]
    {
      assert SameDependency(Graph(deps)[i], other[i]);
    }
  }

  // These answers for the dependencies leave one saturated and no root candidate.
  predicate LeavesNoRoot(s: OptiScalerSpec, base: Readings, dependencies: seq<DependencyReading>) {
    var deps := ObservedDependencies(s.dependencies, base.(dependencies := dependencies));
    AllComplete(deps) && SaturatedNames(deps) != {} && Roots(deps) == []
  }

  // A validated specification has a DependsOn cycle exactly when some answers for
  // its dependencies leave one saturated and no root candidate.
  lemma CyclicSpecIffNoRoot(s: OptiScalerSpec, base: Readings)
    requires ValidSpec(s)
    ensures Cyclic(Graph(s.dependencies)) <==> exists dependencies :: LeavesNoRoot(s, base, dependencies)
  {
    var graph := Graph(s.dependencies);
    GraphIsUnread(s, base);
    CyclicIffUnattributable(graph);
    if Cyclic(graph) {
      var other :| Unattributable(graph, other);
      RealizedAs(s.dependencies, base, other);
      assert LeavesNoRoot(s, base, Realizing(other));
    } else if dependencies :| LeavesNoRoot(s, base, dependencies) {
      var readings := base.(dependencies := dependencies);
      MeasuringKeepsConfiguration(s.dependencies, readings);
      assert Unattributable(graph, ObservedDependencies(s.dependencies, readings));
    }
  }
}
