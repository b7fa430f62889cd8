// The OptiScaler specification and its validation
// (internal/controller/optiscaler_controller.go, validateSpec).
module Spec {
  import opened Values
  import P = Prediction

  const MINIMUM_MARGIN: real := 0.000001

  datatype WorkloadRef = WorkloadRef(apiVersion: string, kind: string, name: string)

  datatype MetricSpec = MetricSpec(
    prometheusQuery: string, utilizationQuery: string, hottestQuery: string, servingQuery: string,
    predictiveQuery: string, requestRateQuery: string, errorRateQuery: string, physicalLimit: Float)

  datatype PolicySpec = PolicySpec(scaleUpThreshold: Float, scaleDownThreshold: Float, upStep: int32, downStep: int32,
    cooldownSeconds: int32)

  datatype DependencySpec = DependencySpec(
    name: string, dependsOn: string, workload: WorkloadRef, latencyQuery: string, utilizationQuery: string,
    requestRateQuery: string, errorRateQuery: string, latencyThreshold: Float, utilizationThreshold: Float,
    scalable: bool, min: int32, max: int32)

  datatype OptiScalerSpec = OptiScalerSpec(
    workload: WorkloadRef, min: int32, max: int32, metric: MetricSpec, sloTargetP95: Float, policy: PolicySpec,
    prediction: P.Config, prometheusAddress: string, dependencies: seq<DependencySpec>)

  // unicode.IsSpace.
  predicate Space(c: char) {
    var n := c as int;
    9 <= n <= 13 || 0x2000 <= n <= 0x200a || n in {0x20, 0x85, 0xa0, 0x1680, 0x2028, 0x2029, 0x202f, 0x205f, 0x3000}
  }

  // strings.TrimSpace(s) == "".
  predicate Blank(s: string) {
    forall i :: 0 <= i < |s| ==> Space(s[i])
  }

  predicate DeploymentRef(w: WorkloadRef) {
    w.apiVersion == "apps/v1" && w.kind == "Deployment" && !Blank(w.name)
  }

  // Both rate queries or neither.
  predicate PairedQueries(requests: string, errors: string) {
    Blank(requests) <==> Blank(errors)
  }

  predicate ValidWindow(seconds: int32) {
    P.MINIMUM_WINDOW_SECONDS <= seconds <= P.MAXIMUM_WINDOW_SECONDS
  }

  predicate ValidPrediction(c: P.Config, m: MetricSpec) {
    && !Blank(m.requestRateQuery) && !Blank(m.errorRateQuery) && !Blank(m.predictiveQuery)
    && ValidWindow(c.windowSeconds)
    && c.margin.Finite? && MINIMUM_MARGIN <= c.margin.v <= 1.0
    && c.maxErrorRate.Finite? && 0.0 <= c.maxErrorRate.v <= 1.0
  }

  predicate ValidMain(s: OptiScalerSpec) {
    && DeploymentRef(s.workload)
    && 1 <= s.min <= s.max
    && !Blank(s.metric.prometheusQuery)
    && !Blank(s.metric.utilizationQuery) && !Blank(s.metric.hottestQuery) && !Blank(s.metric.servingQuery)
    && s.metric.physicalLimit.Finite? && s.metric.physicalLimit.v >= 1.0
    && PairedQueries(s.metric.requestRateQuery, s.metric.errorRateQuery)
    && (s.prediction.windowSeconds == 0 || ValidWindow(s.prediction.windowSeconds))
    && (s.prediction.enabled ==> ValidPrediction(s.prediction, s.metric))
    && FiniteNonnegative(s.sloTargetP95)
    && FiniteNonnegative(s.policy.scaleUpThreshold) && FiniteNonnegative(s.policy.scaleDownThreshold)
    && s.policy.scaleDownThreshold.v <= s.policy.scaleUpThreshold.v
    && s.policy.upStep >= 1 && s.policy.downStep >= 1
    && !Blank(s.prometheusAddress)
  }

  // A dependency on its own, given the primary workload.
  predicate ValidDependency(d: DependencySpec, primary: string) {
    && !Blank(d.name) && DeploymentRef(d.workload)
    && d.name != "target"
    && 1 <= d.min <= d.max
    && d.workload.name != primary
    && !Blank(d.latencyQuery) && !Blank(d.utilizationQuery)
    && PairedQueries(d.requestRateQuery, d.errorRateQuery)
    && FiniteNonnegative(d.latencyThreshold) && FiniteNonnegative(d.utilizationThreshold)
  }

  predicate UniqueNames(deps: seq<DependencySpec>) {
    forall i, j :: 0 <= i < j < |deps| ==> deps[i].name != deps[j].name
  }

  predicate Configured(deps: seq<DependencySpec>, name: string) {
    exists d :: d in deps && d.name == name
  }

  predicate ValidReference(d: DependencySpec, deps: seq<DependencySpec>) {
    d.dependsOn == "" || (d.dependsOn != d.name && Configured(deps, d.dependsOn))
  }

  predicate ValidSpec(s: OptiScalerSpec) {
    && ValidMain(s)
    && UniqueNames(s.dependencies)
    && (forall d :: d in s.dependencies ==> ValidDependency(d, s.workload.name))
    && (forall d :: d in s.dependencies ==> ValidReference(d, s.dependencies))
  }

  // ----- The validation as the program runs it; false stands for any error -----

  // Everything but the dependencies.
  method ValidateMain(s: OptiScalerSpec) returns (ok: bool)
    ensures ok <==> ValidMain(s)
  {
    if s.workload.apiVersion != "apps/v1" || s.workload.kind != "Deployment" { return false; }
    if Blank(s.workload.name) { return false; }
    if s.min < 1 { return false; }
    if s.max < s.min { return false; }
    if Blank(s.metric.prometheusQuery) { return false; }
    if Blank(s.metric.utilizationQuery) || Blank(s.metric.hottestQuery) || Blank(s.metric.servingQuery) {
      return false;
    }
    if !s.metric.physicalLimit.Finite? || s.metric.physicalLimit.v < 1.0 { return false; }
    if !PairedQueries(s.metric.requestRateQuery, s.metric.errorRateQuery) { return false; }
    if s.prediction.windowSeconds != 0 && !ValidWindow(s.prediction.windowSeconds) { return false; }
    if s.prediction.enabled {
      if Blank(s.metric.requestRateQuery) || Blank(s.metric.errorRateQuery) { return false; }
      if Blank(s.metric.predictiveQuery) { return false; }
      if !ValidWindow(s.prediction.windowSeconds) { return false; }
      if !s.prediction.margin.Finite? || s.prediction.margin.v < MINIMUM_MARGIN || s.prediction.margin.v > 1.0 {
        return false;
      }
      if !s.prediction.maxErrorRate.Finite? || s.prediction.maxErrorRate.v < 0.0
        || s.prediction.maxErrorRate.v > 1.0 {
        return false;
      }
    }
    if !FiniteNonnegative(s.sloTargetP95) { return false; }
    if !FiniteNonnegative(s.policy.scaleUpThreshold) || !FiniteNonnegative(s.policy.scaleDownThreshold) {
      return false;
    }
    if Greater(s.policy.scaleDownThreshold, s.policy.scaleUpThreshold) { return false; }
    if s.policy.upStep < 1 || s.policy.downStep < 1 { return false; }
    if Blank(s.prometheusAddress) { return false; }
    return true;
  }

  // The checks of one dependency, given the names seen so far.
  method ValidateDependency(d: DependencySpec, primary: string, seen: set<string>) returns (ok: bool)
    ensures ok <==> ValidDependency(d, primary) && d.name !in seen
  {
    if Blank(d.name) || Blank(d.workload.name) { return false; }
    if d.workload.apiVersion != "apps/v1" || d.workload.kind != "Deployment" { return false; }
    if d.name in seen { return false; }
    if d.name == "target" { return false; }
    if d.min < 1 || d.max < d.min { return false; }
    if d.workload.name == primary { return false; }
    if Blank(d.latencyQuery) || Blank(d.utilizationQuery) { return false; }
    if !PairedQueries(d.requestRateQuery, d.errorRateQuery) { return false; }
    if !FiniteNonnegative(d.latencyThreshold) || !FiniteNonnegative(d.utilizationThreshold) { return false; }
    return true;
  }

  // The first loop, filling `seen`.
  method ValidateDependencies(deps: seq<DependencySpec>, primary: string) returns (ok: bool, seen: set<string>)
    ensures ok <==> UniqueNames(deps) && forall d :: d in deps ==> ValidDependency(d, primary)
    ensures ok ==> forall n :: n in seen <==> Configured(deps, n)
  {
    seen := {};
    for i := 0 to |deps|
      invariant UniqueNames(deps[..i]) && forall j :: 0 <= j < i ==> ValidDependency(deps[j], primary)
      invariant seen == set j | 0 <= j < i :: deps[j].name
    {
      var valid := ValidateDependency(deps[i], primary, seen);
      if !valid {
        assert deps[i] in deps;
        return false, seen;
      }
      seen := seen + {deps[i].name};
    }
    ok := true;
    assert deps[..|deps|] == deps;
    assert forall n :: n in seen <==> exists j :: 0 <= j < |deps| && deps[j].name == n;
    forall n
      ensures n in seen <==> Configured(deps, n)
    {
      if n in seen {
        var j :| 0 <= j < |deps| && deps[j].name == n;
        assert deps[j] in deps;
      }
    }
  }

  // The second loop.
  method ValidateReferences(deps: seq<DependencySpec>, seen: set<string>) returns (ok: bool)
    requires forall n :: n in seen <==> Configured(deps, n)
    ensures ok <==> forall d :: d in deps ==> ValidReference(d, deps)
  {
    for i := 0 to |deps|
      invariant forall j :: 0 <= j < i ==> ValidReference(deps[j], deps)
    {
      var d := deps[i];
      if d.dependsOn == "" {
        continue;
      }
      if d.dependsOn == d.name || d.dependsOn !in seen {
        assert d in deps && !ValidReference(d, deps);
        return false;
      }
    }
    return true;
  }

  method ValidateSpec(s: OptiScalerSpec) returns (ok: bool)
    ensures ok <==> ValidSpec(s)
  {
    ok := ValidateMain(s);
    if !ok {
      return;
    }
    var seen: set<string>;
    ok, seen := ValidateDependencies(s.dependencies, s.workload.name);
    if ok {
      ok := ValidateReferences(s.dependencies, seen);
    }
  }

  // ----- What validation does and does not give -----

  // Reconcile takes the capacity path instead of the scalar policy, which alone
  // could scale down.
  predicate TakesCapacityPath(s: OptiScalerSpec) {
    s.metric.utilizationQuery != "" || |s.dependencies| > 0
  }

  lemma ScalarPathUnreachable(s: OptiScalerSpec)
    requires ValidSpec(s)
    ensures TakesCapacityPath(s)
  {
  }

  // Self-references and unknown names are refused, but not longer cycles: with
  // DependsOn pointing both ways, two valid dependencies stay valid.
  lemma TwoCyclesAreAccepted(s: OptiScalerSpec, a: DependencySpec, b: DependencySpec)
    requires ValidSpec(s) && s.dependencies == [a, b]
    ensures ValidSpec(s.(dependencies := [a.(dependsOn := b.name), b.(dependsOn := a.name)]))
  {
    var a', b' := a.(dependsOn := b.name), b.(dependsOn := a.name);
    var deps := [a', b'];
    assert s.dependencies[0] == a && s.dependencies[1] == b;
    assert a in s.dependencies && b in s.dependencies;
    assert ValidDependency(a', s.workload.name) && ValidDependency(b', s.workload.name);
    assert a' in deps && b' in deps;
    assert ValidReference(a', deps) && ValidReference(b', deps);
  }

  predicate DistinctWorkloads(deps: seq<DependencySpec>) {
    forall i, j :: 0 <= i < j < |deps| ==> deps[i].workload.name != deps[j].workload.name
  }

  // Names are unique, workloads need not be: two dependencies may be configured
  // on one Deployment, each with bounds of its own.
  lemma SharedWorkloadIsAccepted(s: OptiScalerSpec, a: DependencySpec, b: DependencySpec)
    requires ValidSpec(s) && s.dependencies == [a, b]
    ensures ValidSpec(s.(dependencies := [a, b.(workload := a.workload)]))
  {
    var b' := b.(workload := a.workload);
    var deps := [a, b'];
    assert s.dependencies[0] == a && s.dependencies[1] == b;
    assert a in s.dependencies && b in s.dependencies;
    assert ValidDependency(b', s.workload.name);
    assert a in deps && b' in deps;
    KeptReference(s.dependencies, deps, a);
    KeptReference(s.dependencies, deps, b);
  }

  lemma KeptReference(deps: seq<DependencySpec>, other: seq<DependencySpec>, d: DependencySpec)
    requires ValidReference(d, deps) && |deps| == |other| && forall i :: 0 <= i < |deps| ==>
      deps[i].name == other[i].name
    ensures ValidReference(d, other)
  {
    if d.dependsOn != "" {
      var e :| e in deps && e.name == d.dependsOn;
      var i :| 0 <= i < |deps| && deps[i] == e;
      assert other[i] in other;
    }
  }
}
