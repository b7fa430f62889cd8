// The specifications that validation accepts, field by field and by position.
module SpecLaws {
  import opened Values
  import opened Spec

  // Some character that is not white space.
  predicate Filled(text: string) {
    exists i :: 0 <= i < |text| &&
      text[i] != ' ' && text[i] != '\t' && text[i] != '\n' && text[i] != '\r' && !Rare(text[i])
  }

  // The white space nobody types.
  predicate Rare(c: char) {
    c in {'\U{0B}', '\U{0C}', '\U{85}', '\U{A0}', '\U{1680}', '\U{2000}', '\U{2001}', '\U{2002}', '\U{2003}',
          '\U{2004}', '\U{2005}', '\U{2006}', '\U{2007}', '\U{2008}', '\U{2009}', '\U{200A}', '\U{2028}',
          '\U{2029}', '\U{202F}', '\U{205F}', '\U{3000}'}
  }

  lemma FilledIff(text: string)
    ensures Filled(text) <==> !Blank(text)
  {
    forall i | 0 <= i < |text|
      ensures Space(text[i]) <==>
        text[i] == ' ' || text[i] == '\t' || text[i] == '\n' || text[i] == '\r' || Rare(text[i])
    {
      SpaceIff(text[i]);
    }
  }

  lemma SpaceIff(c: char)
    ensures Space(c) <==> c == ' ' || c == '\t' || c == '\n' || c == '\r' || Rare(c)
  {
    var n := c as int;
    assert n as char == c;
  }

  // A dependency that is complete in itself, next to a primary workload.
  predicate Sound(d: DependencySpec, primary: string) {
    && Filled(d.name) && d.name != "target"
    && d.workload.apiVersion == "apps/v1" && d.workload.kind == "Deployment" && Filled(d.workload.name)
    && d.workload.name != primary
    && 1 <= d.min && d.min <= d.max
    && Filled(d.latencyQuery) && Filled(d.utilizationQuery)
    && (Filled(d.requestRateQuery) == Filled(d.errorRateQuery))
    && d.latencyThreshold.Finite? && d.latencyThreshold.v >= 0.0
    && d.utilizationThreshold.Finite? && d.utilizationThreshold.v >= 0.0
  }

  // A prediction that can be made.
  predicate Predictable(s: OptiScalerSpec) {
    var p := s.prediction;
    && Filled(s.metric.requestRateQuery) && Filled(s.metric.errorRateQuery) && Filled(s.metric.predictiveQuery)
    && 2 <= p.windowSeconds && p.windowSeconds <= 120
    && p.margin.Finite? && 0.000001 <= p.margin.v && p.margin.v <= 1.0
    && p.maxErrorRate.Finite? && 0.0 <= p.maxErrorRate.v && p.maxErrorRate.v <= 1.0
  }

  // The target, its metrics and its policy.
  predicate SoundTarget(s: OptiScalerSpec) {
    && s.workload.apiVersion == "apps/v1" && s.workload.kind == "Deployment" && Filled(s.workload.name)
    && 1 <= s.min && s.min <= s.max
    && Filled(s.metric.prometheusQuery) && Filled(s.metric.utilizationQuery) && Filled(s.metric.hottestQuery)
    && Filled(s.metric.servingQuery) && Filled(s.prometheusAddress)
    && (Filled(s.metric.requestRateQuery) == Filled(s.metric.errorRateQuery))
    && s.metric.physicalLimit.Finite? && s.metric.physicalLimit.v >= 1.0
    && s.sloTargetP95.Finite? && s.sloTargetP95.v >= 0.0
    && s.policy.scaleUpThreshold.Finite? && s.policy.scaleDownThreshold.Finite?
    && 0.0 <= s.policy.scaleDownThreshold.v && s.policy.scaleDownThreshold.v <= s.policy.scaleUpThreshold.v
    && 1 <= s.policy.upStep && 1 <= s.policy.downStep
    && (s.prediction.windowSeconds == 0 || (2 <= s.prediction.windowSeconds && s.prediction.windowSeconds <= 120))
    && (s.prediction.enabled ==> Predictable(s))
  }

  // Dependency k refers to nothing, or to another one of the list.
  predicate RefersWell(deps: seq<DependencySpec>, k: nat)
    requires k < |deps|
  {
    deps[k].dependsOn == "" || exists j :: 0 <= j < |deps| && j != k && deps[j].name == deps[k].dependsOn
  }

  lemma SoundIff(d: DependencySpec, primary: string)
    ensures Sound(d, primary) <==> ValidDependency(d, primary)
  {
    FilledIff(d.name);
    FilledIff(d.workload.name);
    FilledIff(d.latencyQuery);
    FilledIff(d.utilizationQuery);
    FilledIff(d.requestRateQuery);
    FilledIff(d.errorRateQuery);
  }

  lemma SoundTargetIff(s: OptiScalerSpec)
    ensures SoundTarget(s) <==> ValidMain(s)
  {
    FilledIff(s.workload.name);
    FilledIff(s.metric.prometheusQuery);
    FilledIff(s.metric.utilizationQuery);
    FilledIff(s.metric.hottestQuery);
    FilledIff(s.metric.servingQuery);
    FilledIff(s.metric.requestRateQuery);
    FilledIff(s.metric.errorRateQuery);
    FilledIff(s.metric.predictiveQuery);
    FilledIff(s.prometheusAddress);
  }

  lemma RefersWellIff(deps: seq<DependencySpec>, k: nat)
    requires UniqueNames(deps) && k < |deps|
    ensures RefersWell(deps, k) <==> ValidReference(deps[k], deps)
  {
    if deps[k].dependsOn != "" {
      if j :| 0 <= j < |deps| && j != k && deps[j].name == deps[k].dependsOn {
        assert deps[j] in deps && deps[j].name != deps[k].name;
      }
      if e :| e in deps && e.name == deps[k].dependsOn {
        var j :| 0 <= j < |deps| && deps[j] == e;
      }
    }
  }

  // Exactly which specifications are accepted: a sound target, and dependencies that
  // are sound, differently named, and refer to one another or to nothing.
  lemma AcceptedIff(s: OptiScalerSpec)
    ensures ValidSpec(s) <==>
      && SoundTarget(s)
      && (forall k :: 0 <= k < |s.dependencies| ==> Sound(s.dependencies[k], s.workload.name))
      && (forall i, j :: 0 <= i < j < |s.dependencies| ==> s.dependencies[i].name != s.dependencies[j].name)
      && (forall k :: 0 <= k < |s.dependencies| ==> RefersWell(s.dependencies, k))
  {
    var deps := s.dependencies;
    SoundTargetIff(s);
    forall k | 0 <= k < |deps|
      ensures Sound(deps[k], s.workload.name) <==> ValidDependency(deps[k], s.workload.name)
      ensures UniqueNames(deps) ==> (RefersWell(deps, k) <==> ValidReference(deps[k], deps))
    {
      SoundIff(deps[k], s.workload.name);
      if UniqueNames(deps) {
        RefersWellIff(deps, k);
      }
    }
    ByPosition(deps, s.workload.name);
  }

  lemma ByPosition(deps: seq<DependencySpec>, primary: string)
    ensures (forall d :: d in deps ==> ValidDependency(d, primary)) <==>
      forall k :: 0 <= k < |deps| ==> ValidDependency(deps[k], primary)
    ensures (forall d :: d in deps ==> ValidReference(d, deps)) <==>
      forall k :: 0 <= k < |deps| ==> ValidReference(deps[k], deps)
  {
    forall k | 0 <= k < |deps|
      ensures deps[k] in deps
    {
    }
  }
}
