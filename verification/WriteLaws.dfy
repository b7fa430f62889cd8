// When a reconcile writes, which workload, and what: from the specification, the
// stored status, the readings and the histories, with nothing in between.
module WriteLaws {
  import opened Values
  import opened Analyzer
  import opened Policy
  import opened Spec
  import opened Controller
  import L = ControllerLaws
  import V = VerdictLaws

  // ----- The reasons for a write -----

  // Less than the cooldown has passed since the last remembered write.
  predicate Cooling(s: OptiScalerSpec, status: Status, now: int) {
    && status.lastScale.Some? && s.policy.cooldownSeconds > 0
    && now - status.lastScale.value < s.policy.cooldownSeconds * SECOND
  }

  // Within the bounds, and there is something to add (or the sum does not fit).
  predicate CanRise(replicas: int32, min: int32, max: int32, step: int32) {
    min <= replicas && replicas <= max && (replicas < max || replicas + step > 0x7fff_ffff)
  }

  // One step more, up to the maximum; a sum that does not fit in 32 bits wraps.
  function Raised(replicas: int32, max: int32, step: int32): int {
    if replicas + step > 0x7fff_ffff then replicas + step - 0x1_0000_0000
    else if replicas + step > max then max
    else replicas + step
  }

  // Every Ready replica serves.
  predicate AllServe(readings: Readings, ready: int32) {
    readings.effective.value.Finite? && readings.effective.value.v == ready as real
  }

  // The target is slow and at its safe share of slots, out of its cooldown, with
  // room to rise.
  ghost predicate TargetWanted(s: OptiScalerSpec, status: Status, readings: Readings, current: int32, ready: int32,
      margin: real)
    requires ValidSpec(s)
  {
    && (exists h :: V.Complete(s, readings, ready, h) && readings.p95.value.v > s.sloTargetP95.v
          && h >= s.metric.physicalLimit.v * margin)
    && !Cooling(s, status, readings.now) && CanRise(current, s.min, s.max, s.policy.upStep)
  }

  // It is to be raised if besides all Ready replicas serve.
  ghost predicate TargetDue(s: OptiScalerSpec, status: Status, readings: Readings, current: int32, ready: int32,
      margin: real)
    requires ValidSpec(s)
  {
    TargetWanted(s, status, readings, current, ready, margin) && AllServe(readings, ready)
  }

  // Dependency k is to be raised: the target is slow but below that share, k is the
  // only candidate and scalable, the cooldown is over, and there is room. The bounds
  // of the target are checked as well.
  ghost predicate DependencyDue(s: OptiScalerSpec, status: Status, readings: Readings, current: int32, ready: int32,
      m: real, k: nat)
    requires ValidSpec(s) && k < |s.dependencies|
  {
    var d, r := s.dependencies[k], ReadingAt(readings, k);
    && V.Elsewhere(s, readings, ready, m) && V.OnlyRoot(s, readings, k) && d.scalable
    && !Cooling(s, status, readings.now) && s.min <= current && current <= s.max
    && r.scale.Some? && CanRise(r.scale.value, d.min, d.max, s.policy.upStep)
  }

  // ----- The reactive decision -----

  lemma CoolingIff(s: OptiScalerSpec, status: Status, now: int)
    ensures Waiting(LimitsOf(s, status, now)) <==> Cooling(s, status, now)
  {
  }

  lemma CanRiseIff(s: OptiScalerSpec, status: Status, now: int, c: Component)
    requires s.policy.upStep >= 1 && s.policy.downStep >= 1 && c.min >= 1
    ensures Sound(c, LimitsOf(s, status, now)) && !Full(c, LimitsOf(s, status, now)) <==>
      CanRise(c.current, c.min, c.max, s.policy.upStep)
    ensures CanRise(c.current, c.min, c.max, s.policy.upStep) ==>
      StepUp(c, s.policy.upStep) == Raised(c.current, c.max, s.policy.upStep)
  {
    if CanRise(c.current, c.min, c.max, s.policy.upStep) {
      StepUpIs(c, s.policy.upStep);
    }
  }

  lemma ScalesTargetIff(input: CapacityInput)
    requires input.analysis.component in input.dependencies ==>
      input.dependencies[input.analysis.component].name != input.target.name
    ensures var d := EvaluateCapacity(input);
      && (d.action.ScaleTarget? <==>
          && input.analysis.classification.TargetSaturated? && !Waiting(input.limits)
          && Sound(input.target, input.limits) && !Full(input.target, input.limits))
      && (d.action.ScaleTarget? ==>
          d.chosen == input.target.name && d.current == input.target.current
          && d.desired == StepUp(input.target, input.limits.upStep))
  {
    StepUpWhenSound(input.target, input.limits);
    CapacityDecision(input);
  }

  lemma ScalesDependencyIff(input: CapacityInput, c: Component)
    requires c.name in input.dependencies && input.dependencies[c.name] == c && c.name != input.target.name
    requires forall n :: n in input.dependencies ==> input.dependencies[n].name == n
    ensures var d := EvaluateCapacity(input);
      && (d.action.ScaleDependency? && d.chosen == c.name <==>
          && input.analysis.classification.DependencySaturated? && input.analysis.component == c.name && c.scalable
          && !Waiting(input.limits) && Sound(input.target, input.limits)
          && Sound(c, input.limits) && !Full(c, input.limits))
      && (d.action.ScaleDependency? && d.chosen == c.name ==>
          d.current == c.current && d.desired == StepUp(c, input.limits.upStep))
  {
    StepUpWhenSound(input.target, input.limits);
    StepUpWhenSound(c, input.limits);
    CapacityDecision(input);
  }

  lemma NamesAreTheirs(s: OptiScalerSpec, readings: Readings)
    requires ValidSpec(s)
    ensures forall n :: n in Components(s.dependencies, readings) ==>
      n != "target" && Components(s.dependencies, readings)[n].name == n
  {
    ComponentNames(s.dependencies, readings);
    forall d | d in s.dependencies
      ensures d.name != "target"
    {
      assert ValidDependency(d, s.workload.name);
    }
    L.TargetAt(s.dependencies, readings, ScaleEntry("", 0));
  }

  // The reactive decision scales the target exactly when that is wanted; whether its
  // replicas serve is looked at later.
  lemma ReactiveTargetIff(s: OptiScalerSpec, status: Status, readings: Readings, current: int32, ready: int32, m: real)
    requires ValidSpec(s) && V.IsMargin(s, m)
    ensures var d := Reactive(s, status, readings, current, ready);
      && (d.action.ScaleTarget? <==> TargetWanted(s, status, readings, current, ready, m))
      && (d.action.ScaleTarget? ==>
          d.chosen == "target" && d.current == current && d.desired == Raised(current, s.max, s.policy.upStep))
  {
    NamesAreTheirs(s, readings);
    ScalesTargetIff(CapacityInputOf(s, status, readings, current, ready));
    V.TargetSaturatedIff(s, readings, current, ready, m);
    CoolingIff(s, status, readings.now);
    CanRiseIff(s, status, readings.now, TargetComponent(s, current));
  }

  lemma ReactiveDependencyIff(s: OptiScalerSpec, status: Status, readings: Readings, current: int32, ready: int32,
      m: real, k: nat)
    requires ValidSpec(s) && V.IsMargin(s, m) && k < |s.dependencies|
    ensures var d, c := Reactive(s, status, readings, current, ready), s.dependencies[k];
      && (d.action.ScaleDependency? && d.chosen == c.name <==>
          DependencyDue(s, status, readings, current, ready, m, k))
      && (d.action.ScaleDependency? && d.chosen == c.name ==>
          && d.current == ScaleOr0(ReadingAt(readings, k))
          && d.desired == Raised(ScaleOr0(ReadingAt(readings, k)), c.max, s.policy.upStep))
  {
    assert s.dependencies[k] in s.dependencies;
    assert ValidDependency(s.dependencies[k], s.workload.name);
    var c := ComponentOf(s.dependencies[k], ReadingAt(readings, k));
    NamesAreTheirs(s, readings);
    L.DependencyAt(s.dependencies, readings, ScaleEntry("", 0), k);
    ScalesDependencyIff(CapacityInputOf(s, status, readings, current, ready), c);
    V.DependencyNamedIff(s, readings, current, ready, m, k);
    CoolingIff(s, status, readings.now);
    CanRiseIff(s, status, readings.now, c);
  }
}
