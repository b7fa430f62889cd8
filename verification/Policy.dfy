// From a bottleneck classification to at most one bounded replica change
// (internal/policy/policy.go).
module Policy {
  import opened Values
  import opened Analyzer
  import F = Forecast

  datatype Action = ScaleTarget | ScaleDependency | PrescaleTarget | Hold | ProtectedMode

  // Which branch decided; the wording of the reason is left out.
  datatype Why =
    | ByAnalysis | InvalidTarget | NotABlockedDependency | InvalidBlockedDependency | CooldownActive
    | NotConfigured | NotScalable | InvalidDependency | Unsupported | AtMaximum | BoundedStep
    | Rejected | ForecastExceedsCapacity | Unrealized

  datatype Component = Component(name: string, current: int32, min: int32, max: int32, scalable: bool)

  datatype Decision = Decision(action: Action, chosen: string, current: int32, desired: int32, why: Why)

  datatype Limits = Limits(upStep: int32, downStep: int32, cooldown: int, lastScale: Option<int>, now: int)

  datatype CapacityInput = CapacityInput(analysis: Analysis, target: Component, dependencies: map<string, Component>,
    limits: Limits)

  predicate Scales(a: Action) {
    a in {ScaleTarget, ScaleDependency, PrescaleTarget}
  }

  predicate ValidComponent(c: Component, up: int32, down: int32) {
    c.min >= 1 && c.max >= c.min && c.min <= c.current <= c.max && up >= 1 && down >= 1
  }

  predicate CoolingDown(l: Limits) {
    l.lastScale.Some? && l.cooldown > 0 && l.now < l.lastScale.value + l.cooldown
  }

  // current + step, cut at the maximum; the addition is on int32.
  function StepUp(c: Component, step: int32): int32 {
    var desired := Add32(c.current, step);
    if desired > c.max then c.max else desired
  }

  function RaiseBy(c: Component, targetName: string, step: int32): Decision {
    var desired := StepUp(c, step);
    if desired == c.current then Decision(Hold, c.name, c.current, c.current, AtMaximum)
    else
      var action := if c.name != targetName then ScaleDependency else ScaleTarget;
      Decision(action, c.name, c.current, desired, BoundedStep)
  }

  function EvaluateCapacity(input: CapacityInput): Decision {
    var target, limits := input.target, input.limits;
    var decision := Decision(ProtectedMode, target.name, target.current, target.current, ByAnalysis);
    var verdict := input.analysis.classification;
    if verdict.Uncertain? then decision
    else if !ValidComponent(target, limits.upStep, limits.downStep) then decision.(why := InvalidTarget)
    else if verdict.CapacityBlocked? then
      if input.analysis.component !in input.dependencies || input.dependencies[input.analysis.component].scalable then
        decision.(why := NotABlockedDependency)
      else
        var candidate := input.dependencies[input.analysis.component];
        if !ValidComponent(candidate, limits.upStep, limits.downStep) then decision.(why := InvalidBlockedDependency)
        else Decision(Hold, candidate.name, candidate.current, candidate.current, ByAnalysis)
    else if CoolingDown(limits) then decision.(action := Hold, why := CooldownActive)
    else if verdict.Healthy? then decision.(action := Hold)
    else if verdict.DependencySaturated? then
      if input.analysis.component !in input.dependencies then decision.(why := NotConfigured)
      else
        var candidate := input.dependencies[input.analysis.component];
        var held := Decision(ProtectedMode, candidate.name, candidate.current, candidate.current, NotScalable);
        if !candidate.scalable then held
        else if !ValidComponent(candidate, limits.upStep, limits.downStep) then held.(why := InvalidDependency)
        else RaiseBy(candidate, target.name, limits.upStep)
    else if verdict.TargetSaturated? then RaiseBy(target, target.name, limits.upStep)
    else decision.(why := Unsupported)
  }

  datatype PrescaleInput = PrescaleInput(
    current: Decision,
    classification: Classification,
    requestTelemetryValid: bool,
    predictiveDemandValid: bool,
    errorRateHealthy: bool,
    dependenciesHealthy: bool,
    targetUnsaturated: bool,
    capacityEvidenceValid: bool,
    rejected: bool,  // the rejection reason is not empty
    quality: F.Quality,
    forecastRate: Float,
    slope: Float,
    safeCapacity: Float,
    horizon: int,
    target: Component,
    limits: Limits)

  function EvaluatePrescale(input: PrescaleInput): Decision {
    var decision := input.current;
    var reject := decision.(action := Hold, desired := decision.current, why := Rejected);
    if decision.action != Hold || input.classification != Healthy then decision
    else if !input.requestTelemetryValid then reject
    else if !input.predictiveDemandValid then reject
    else if !input.errorRateHealthy then reject
    else if !input.dependenciesHealthy then reject
    else if !input.targetUnsaturated then reject
    else if !input.capacityEvidenceValid then reject
    else if input.rejected then reject
    else if CoolingDown(input.limits) then reject
    else if input.quality != F.High then reject
    else if input.horizon <= 0 then reject
    else if !FiniteNonnegative(input.forecastRate) || !input.safeCapacity.Finite? || input.safeCapacity.v <= 0.0
            || !input.slope.Finite? || input.slope.v <= 0.0 then reject
    else if AtMost(input.forecastRate, input.safeCapacity) then reject
    else if !ValidComponent(input.target, input.limits.upStep, 1) then reject
    else
      var desired := StepUp(input.target, input.limits.upStep);
      if desired == input.target.current then reject
      else Decision(PrescaleTarget, input.target.name, input.target.current, desired, ForecastExceedsCapacity)
  }

  // ----- What a decision promises -----

  // A step is a raise by at most the step, within the maximum, exactly when the
  // addition fits in 32 bits; otherwise the request is negative.
  lemma StepUpRaisesIffNoOverflow(c: Component, step: int32)
    requires ValidComponent(c, step, 1)
    ensures c.current <= StepUp(c, step) <= c.max && StepUp(c, step) - c.current <= step <==>
      c.current + step <= MAX_INT32
    ensures c.current + step <= MAX_INT32 ==> (StepUp(c, step) == c.current <==> c.current == c.max)
    ensures c.current + step > MAX_INT32 ==> StepUp(c, step) < 0
  {
  }

  // The step in numbers.
  lemma StepUpIs(c: Component, step: int32)
    requires 1 <= c.min <= c.current <= c.max && step >= 1
    ensures StepUp(c, step) ==
      if c.current + step > 0x7fff_ffff then c.current + step - 0x1_0000_0000
      else if c.current + step > c.max then c.max
      else c.current + step
    ensures StepUp(c, step) == c.current <==> c.current == c.max && c.current + step <= 0x7fff_ffff
  {
  }

  // The overflow reaches a decision: with room for more replicas and a very
  // large step, a saturated target is asked for a negative replica count.
  lemma OverflowLowersReplicas()
    ensures var target := Component("target", 1000, 1, 2000, true);
      var input := CapacityInput(Analysis(TargetSaturated, "target", Analyzer.High), target, map[],
        Limits(MAX_INT32, 1, 0, None, 1));
      EvaluateCapacity(input).action.ScaleTarget? && EvaluateCapacity(input).desired < 0
  {
  }

  // The component a capacity decision acts on.
  function Acted(input: CapacityInput): Component {
    if input.analysis.classification.DependencySaturated? && input.analysis.component in input.dependencies then
      input.dependencies[input.analysis.component]
    else input.target
  }

  // The bounds and the steps make sense.
  predicate Sound(c: Component, l: Limits) {
    1 <= c.min && c.min <= c.current && c.current <= c.max && 1 <= l.upStep && 1 <= l.downStep
  }

  // Less than a cooldown has passed since the last write.
  predicate Waiting(l: Limits) {
    l.lastScale.Some? && l.now - l.lastScale.value < l.cooldown && l.cooldown > 0
  }

  // Nothing can be added: the maximum is reached and the sum fits.
  predicate Full(c: Component, l: Limits) {
    c.current == c.max && c.current + l.upStep <= 0x7fff_ffff
  }

  // The named dependency is there, sound, and scalable or not as the verdict says.
  predicate Named(input: CapacityInput, scalable: bool) {
    && input.analysis.component in input.dependencies
    && input.dependencies[input.analysis.component].scalable == scalable
    && Sound(input.dependencies[input.analysis.component], input.limits)
  }

  // The action of every decision, by verdict. PROTECTED_MODE is for uncertain
  // verdicts and inconsistent components, HOLD for what is blocked, cooling down,
  // healthy or at its maximum; the rest scales.
  lemma ActionTable(input: CapacityInput)
    ensures var action, verdict := EvaluateCapacity(input).action, input.analysis.classification;
      var sound, waiting := Sound(input.target, input.limits), Waiting(input.limits);
      && (action.ProtectedMode? <==>
          || verdict.Uncertain? || !sound
          || (verdict.CapacityBlocked? && !Named(input, false))
          || (verdict.DependencySaturated? && !waiting && !Named(input, true)))
      && (action.Hold? <==>
          && sound
          && match verdict
             case Uncertain => false
             case CapacityBlocked => Named(input, false)
             case Healthy => true
             case TargetSaturated => waiting || Full(input.target, input.limits)
             case DependencySaturated =>
               waiting || (Named(input, true) && Full(input.dependencies[input.analysis.component], input.limits)))
      && !action.PrescaleTarget?
  {
    StepUpWhenSound(input.target, input.limits);
    if input.analysis.component in input.dependencies {
      StepUpWhenSound(input.dependencies[input.analysis.component], input.limits);
    }
  }

  lemma StepUpWhenSound(c: Component, l: Limits)
    ensures Sound(c, l) <==> ValidComponent(c, l.upStep, l.downStep)
    ensures Waiting(l) <==> CoolingDown(l)
    ensures Sound(c, l) ==> (StepUp(c, l.upStep) == c.current <==> Full(c, l))
  {
    if Sound(c, l) {
      StepUpIs(c, l.upStep);
    }
  }

  // What a decision that does not scale is about: the blocked dependency, or the
  // one that cannot or need not be scaled; otherwise the target.
  lemma UnscaledDecision(input: CapacityInput)
    requires !Scales(EvaluateCapacity(input).action)
    ensures var d, a := EvaluateCapacity(input), input.analysis;
      var about := if Sound(input.target, input.limits) && a.component in input.dependencies
        && ((a.classification.CapacityBlocked? && Named(input, false))
            || (a.classification.DependencySaturated? && !Waiting(input.limits)))
        then input.dependencies[a.component] else input.target;
      d.chosen == about.name && d.current == d.desired == about.current
  {
  }

  // Exactly when a capacity decision scales, and what it then asks for. In every
  // other case it asks for no change.
  lemma CapacityDecision(input: CapacityInput)
    ensures var d, c := EvaluateCapacity(input), Acted(input);
      && (Scales(d.action) <==>
          && (input.analysis.classification.TargetSaturated?
              || (input.analysis.classification.DependencySaturated?
                  && input.analysis.component in input.dependencies && c.scalable))
          && ValidComponent(input.target, input.limits.upStep, input.limits.downStep)
          && ValidComponent(c, input.limits.upStep, input.limits.downStep)
          && !CoolingDown(input.limits)
          && StepUp(c, input.limits.upStep) != c.current)
      && (Scales(d.action) ==>
          && var action := if c.name == input.target.name then ScaleTarget else ScaleDependency;
             d == Decision(action, c.name, c.current, StepUp(c, input.limits.upStep), BoundedStep))
      && (!Scales(d.action) ==> d.desired == d.current)
  {
  }

  // Every scaling decision is for the limits it was given: not during cooldown,
  // from valid bounds, and (if the addition fits) a raise by 1..step up to max.
  predicate BoundedRaise(d: Decision, c: Component, step: int32) {
    && d.chosen == c.name && d.current == c.current
    && c.min <= d.current < d.desired <= c.max
    && d.desired - d.current <= step
  }

  lemma CapacityRaises(input: CapacityInput)
    requires Scales(EvaluateCapacity(input).action)
    ensures !CoolingDown(input.limits)
    ensures Acted(input).current + input.limits.upStep <= MAX_INT32 <==>
      BoundedRaise(EvaluateCapacity(input), Acted(input), input.limits.upStep)
  {
    CapacityDecision(input);
    StepUpRaisesIffNoOverflow(Acted(input), input.limits.upStep);
  }

  // A prescale only ever replaces a healthy hold, and only if every gate is
  // open; otherwise the reactive decision stands, except that a rejected
  // prediction asks for what is there already.
  lemma PrescaleDecision(input: PrescaleInput)
    ensures var d := EvaluatePrescale(input);
      && (d.action.PrescaleTarget? && !input.current.action.PrescaleTarget? <==>
          && input.current.action.Hold? && input.classification.Healthy?
          && input.requestTelemetryValid && input.predictiveDemandValid && input.errorRateHealthy
          && input.dependenciesHealthy
          && input.targetUnsaturated && input.capacityEvidenceValid && !input.rejected
          && !CoolingDown(input.limits) && input.quality == F.High && input.horizon > 0
          && input.forecastRate.Finite? && input.safeCapacity.Finite? && input.slope.Finite?
          && 0.0 < input.safeCapacity.v < input.forecastRate.v && input.slope.v > 0.0
          && ValidComponent(input.target, input.limits.upStep, 1)
          && StepUp(input.target, input.limits.upStep) != input.target.current)
      && (d.action.PrescaleTarget? && !input.current.action.PrescaleTarget? ==>
          && d.chosen == input.target.name && d.current == input.target.current
          && d.desired == StepUp(input.target, input.limits.upStep)
          && (input.target.current + input.limits.upStep <= MAX_INT32 <==>
            BoundedRaise(d, input.target, input.limits.upStep)))
      && (!d.action.PrescaleTarget? ==>
        d.action == input.current.action && d.chosen == input.current.chosen && d.current == input.current.current)
      && (!d.action.PrescaleTarget? ==>
        d.desired == input.current.desired || (d.action.Hold? && d.desired == d.current))
  {
    if ValidComponent(input.target, input.limits.upStep, 1) {
      StepUpRaisesIffNoOverflow(input.target, input.limits.upStep);
    }
  }
}
