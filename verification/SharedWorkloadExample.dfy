// One complete reconcile that writes: two dependencies on one Deployment, a write
// decided for the first, within its bounds and past the maximum of the second.
module SharedWorkloadExample {
  import opened Values
  import opened Observation
  import opened Analyzer
  import opened HistoryCache
  import opened Policy
  import opened Spec
  import opened Controller
  import opened ControllerLaws
  import P = Prediction
  import R = Readiness

  const NOW: int := 1000 * SECOND

  function Database(): WorkloadRef {
    WorkloadRef("apps/v1", "Deployment", "db")
  }

  function Reads(): DependencySpec {
    DependencySpec("reads", "", Database(), "q", "q", "", "", Finite(100.0), Finite(0.5), true, 1, 10)
  }

  function Writes(): DependencySpec {
    DependencySpec("writes", "", Database(), "q", "q", "", "", Finite(100.0), Finite(0.5), true, 1, 2)
  }

  function Shared(): OptiScalerSpec {
    OptiScalerSpec(
      WorkloadRef("apps/v1", "Deployment", "web"), 1, 5,
      MetricSpec("q", "q", "q", "q", "", "", "", Finite(4.0)), Finite(200.0),
      PolicySpec(Finite(1.0), Finite(0.0), 1, 1, 60), P.Config(false, 0, Finite(0.75), Finite(0.0)), "p",
      [Reads(), Writes()])
  }

  function Seen(v: real): Metric {
    Metric(Finite(v), NOW, true, true)
  }

  // A slow target below its capacity; "reads" is saturated, "writes" is not.
  function Slow(view: R.TargetView): Readings {
    Readings(
      NOW, Some(1), Some(1), true,
      Seen(300.0), Seen(1.0), Seen(1.0), Seen(1.0), INVALID_METRIC, INVALID_METRIC, INVALID_METRIC,
      [DependencyReading(Some(2), Seen(150.0), Seen(0.9)), DependencyReading(Some(2), Seen(10.0), Seen(0.1))],
      view, true, true)
  }

  lemma NotBlank(s: string)
    requires |s| > 0 && !Space(s[0])
    ensures !Blank(s)
  {
  }

  lemma SharedIsValid()
    ensures ValidSpec(Shared())
  {
    NotBlank("q");
    NotBlank("p");
    NotBlank("web");
    NotBlank("db");
    NotBlank("reads");
    NotBlank("writes");
    assert "reads"[0] != "writes"[0];
    assert ValidDependency(Reads(), "web") && ValidDependency(Writes(), "web");
  }

  function Measured(view: R.TargetView): seq<DependencyObservation> {
    [ObservedDependency(Reads(), Slow(view).dependencies[0]), ObservedDependency(Writes(), Slow(view).dependencies[1])]
  }

  lemma ReadsIsRoot(view: R.TargetView)
    ensures Roots(Measured(view)) == [Measured(view)[0]] && AllComplete(Measured(view))
  {
    var deps := Measured(view);
    var names := SaturatedNames(deps);
    assert deps[0] in deps && deps[0].name in names;
    assert "reads"[0] != "writes"[0];
    assert deps[1].name !in names;
    assert deps[..1] == [deps[0]] && deps[..1][..0] == [];
    assert Filter(deps[..1], RootAmong(names)) == [deps[0]];
  }

  lemma AnalysisNamesReads(view: R.TargetView)
    ensures AnalysisOf(SnapshotOf(Shared(), Slow(view), 1, 1)).classification.DependencySaturated?
    ensures AnalysisOf(SnapshotOf(Shared(), Slow(view), 1, 1)).component == "reads"
  {
    assert ObservedDependencies([Reads(), Writes()], Slow(view)) == Measured(view);
    ReadsIsRoot(view);
    EffectiveCountIff(Seen(1.0), 1, 1);
  }

  lemma ReadsIsRaised(view: R.TargetView)
    ensures Reactive(Shared(), NEW_STATUS, Slow(view), 1, 1) == Decision(ScaleDependency, "reads", 2, 3, BoundedStep)
  {
    AnalysisNamesReads(view);
    SharedIsValid();
    DependencyAt(Shared().dependencies, Slow(view), ScaleEntry("", 0), 0);
    CapacityDecision(CapacityInputOf(Shared(), NEW_STATUS, Slow(view), 1, 1));
  }

  // The reconcile writes 3 replicas to the shared Deployment, which is safe for
  // "reads" and more than "writes" allows.
  lemma SharedWorkloadPassesABound(m: Histories, key: string, view: R.TargetView)
    ensures var s, w := Shared(), Write("db", 2, 3);
      && ValidSpec(s) && WriteOf(m, key, s, NEW_STATUS, Slow(view)) == Some(w)
      && SafeWrite(s, Slow(view), w) && !WithinWorkload(s, w)
  {
    SharedIsValid();
    ReadsIsRaised(view);
    DependencyAt(Shared().dependencies, Slow(view), ScaleEntry("web", 1), 0);
    OneWriteIsSafe(m, key, Shared(), NEW_STATUS, Slow(view), Write("db", 2, 3));
    assert Shared().dependencies[1].max == 2;
  }
}
