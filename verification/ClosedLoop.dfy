// Progress: a target that stays saturated is brought to its maximum in as few
// writes as its step allows, and no more are made.
module ClosedLoop {
  import opened Values
  import opened Samples
  import opened Analyzer
  import opened HistoryCache
  import opened Policy
  import opened Spec
  import opened Controller
  import opened ControllerLaws
  import opened ControllerRuns
  import P = Prediction
  import R = Readiness

  // The reconcile sees a saturated target whose Ready replicas all serve, and its
  // writes go through.
  ghost predicate Saturating(r: Reconciliation, current: int32, ready: int32) {
    && ValidSpec(r.spec) && r.readings.prometheusReady
    && r.readings.targetScale == Some(current) && r.readings.targetReady == Some(ready)
    && AnalysisOf(SnapshotOf(r.spec, r.readings, current, ready)).classification.TargetSaturated?
    && !RealizationPending(TargetSeen(r.spec, r.readings, current, ready))
    && r.readings.scaleUpdated && r.readings.statusUpdated
  }

  // One step up, or what is there at the maximum.
  function OneUp(current: int, max: int, step: int): int {
    if current + step > max then max else current + step
  }

  lemma SaturatedReactive(input: CapacityInput, current: int32)
    requires input.analysis.classification.TargetSaturated? && !CoolingDown(input.limits)
    requires ValidComponent(input.target, input.limits.upStep, input.limits.downStep) && input.target.current == current
    requires input.target.max + input.limits.upStep <= MAX_INT32
    ensures EvaluateCapacity(input) == RaiseBy(input.target, input.target.name, input.limits.upStep)
    ensures StepUp(input.target, input.limits.upStep) == OneUp(current, input.target.max, input.limits.upStep)
  {
  }

  lemma NotHealthyKeepsReactive(i: P.Inputs, demand: seq<Sample>, capacity: seq<Sample>)
    requires !i.verdict.Healthy?
    ensures P.PredictionOf(i, demand, capacity) == i.current
  {
  }

  // What one such reconcile decides: a step up, or a hold at the maximum.
  lemma SaturatedDecision(m: Histories, r: Reconciliation, current: int32, ready: int32)
    requires Saturating(r, current, ready) && !CoolingDown(LimitsOf(r.spec, r.before, r.readings.now))
    requires r.spec.min <= current <= r.spec.max && r.spec.max + r.spec.policy.upStep <= MAX_INT32
    ensures FinalDecision(m, r.key, r.spec, r.before, r.readings, current, ready)
      == RaiseBy(TargetComponent(r.spec, current), "target", r.spec.policy.upStep)
  {
    SaturatedReactive(CapacityInputOf(r.spec, r.before, r.readings, current, ready), current);
    if r.spec.prediction.enabled {
      var i := InputsOf(r.spec, r.before, r.readings, current, ready);
      var entry := P.HistoriesAfter(m, r.key, i);
      NotHealthyKeepsReactive(i, entry.demand, entry.capacity);
    }
  }

  // What it then writes and remembers.
  predicate Climbs(r: Reconciliation, current: int32) {
    && (current < r.spec.max ==>
        && r.write.Some? && r.write.value.workload == r.spec.workload.name && r.write.value.from == current
        && r.write.value.to == OneUp(current, r.spec.max, r.spec.policy.upStep)
        && r.after.lastScale == Some(r.readings.now))
    && (current == r.spec.max ==> r.write.None? && r.after.lastScale == r.before.lastScale)
  }

  lemma RaiseIsWritten(s: OptiScalerSpec, status: Status, learned: R.Learned, readings: Readings, current: int32,
      d: Decision)
    requires ValidSpec(s) && readings.scaleUpdated && readings.statusUpdated && s.min <= current <= s.max
    requires s.max + s.policy.upStep <= MAX_INT32
      && d == RaiseBy(TargetComponent(s, current), "target", s.policy.upStep)
    ensures var w := WriteFor(d, Entries(s.dependencies, readings, ScaleEntry(s.workload.name, current)), readings);
      var after := StatusFor(d, learned, status, readings);
      && (current < s.max ==>
          w == Some(Write(s.workload.name, current, OneUp(current, s.max, s.policy.upStep)))
            && after.lastScale == Some(readings.now))
      && (current == s.max ==> w.None? && after.lastScale == status.lastScale)
  {
    forall e | e in s.dependencies
      ensures e.name != "target"
    {
      assert ValidDependency(e, s.workload.name);
    }
    TargetAt(s.dependencies, readings, ScaleEntry(s.workload.name, current));
  }

  lemma SaturatedReconcile(r: Reconciliation, current: int32, ready: int32)
    requires Reconciled(r) && Saturating(r, current, ready) && !CoolingDown(LimitsOf(r.spec, r.before, r.readings.now))
    requires r.spec.min <= current <= r.spec.max && r.spec.max + r.spec.policy.upStep <= MAX_INT32
    ensures Climbs(r, current)
  {
    SaturatedDecision(r.cache, r, current, ready);
    var d := FinalDecision(r.cache, r.key, r.spec, r.before, r.readings, current, ready);
    var learned := LearnedAfter(r.spec, r.before, r.readings, current, ready);
    RaiseIsWritten(r.spec, r.before, learned, r.readings, current, d);
  }

  // ----- The loop -----

  ghost predicate SaturatedAt(r: Reconciliation, current: int32) {
    r.readings.targetReady.Some? && Saturating(r, current, r.readings.targetReady.value)
  }

  // What the next reconcile reads as replicas.
  function ReplicasAfter(r: Reconciliation): int32
    requires r.readings.targetScale.Some?
  {
    if r.write.Some? then r.write.value.to else r.readings.targetScale.value
  }

  // b is the next reconcile of the resource: same spec, the status a stored, the
  // replicas a left, at least a cooldown later.
  predicate Follows(a: Reconciliation, b: Reconciliation) {
    && a.readings.targetScale.Some?
    && b.spec == a.spec && b.before == a.after && b.readings.targetScale == Some(ReplicasAfter(a))
    && b.readings.now >= a.readings.now
    && b.readings.now - a.readings.now >= a.spec.policy.cooldownSeconds * SECOND
  }

  // Reconciles that keep seeing a saturated target, the first one outside the
  // cooldown and at a count within bounds.
  ghost predicate Persists(loop: seq<Reconciliation>, start: int32) {
    && |loop| > 0 && loop[0].readings.targetScale == Some(start)
    && loop[0].spec.min <= start <= loop[0].spec.max && loop[0].spec.max + loop[0].spec.policy.upStep <= MAX_INT32
    && !CoolingDown(LimitsOf(loop[0].spec, loop[0].before, loop[0].readings.now))
    && (forall i :: 0 <= i < |loop| ==> Reconciled(loop[i]))
    && (forall i :: 0 <= i < |loop| && loop[i].readings.targetScale.Some? ==>
      SaturatedAt(loop[i], loop[i].readings.targetScale.value))
    && (forall i :: 0 < i < |loop| ==> Follows(loop[i - 1], loop[i]))
  }

  // Where the loop stands before reconcile i.
  function Level(start: int, max: int, step: int, i: nat): int {
    if start + i * step >= max then max else start + i * step
  }

  lemma LevelStep(start: int, max: int, step: int, i: nat)
    requires start <= max && step >= 1
    ensures OneUp(Level(start, max, step, i), max, step) == Level(start, max, step, i + 1)
    ensures start <= Level(start, max, step, i) <= max
  {
    assert (i + 1) * step == i * step + step;
    NotNegative(i, step);
  }

  lemma NotNegative(i: nat, step: int)
    requires step >= 1
    ensures i * step >= 0
  {
  }

  lemma NextIsReady(a: Reconciliation, b: Reconciliation, current: int32)
    requires Climbs(a, current) && Follows(a, b) && a.readings.targetScale == Some(current) && current <= a.spec.max
    requires a.spec.policy.upStep >= 1 && !CoolingDown(LimitsOf(a.spec, a.before, a.readings.now))
    ensures !CoolingDown(LimitsOf(b.spec, b.before, b.readings.now))
    ensures ReplicasAfter(a) == OneUp(current, a.spec.max, a.spec.policy.upStep)
  {
  }

  // One reconcile of the loop, given where it stands.
  lemma LoopReconcile(r: Reconciliation, current: int32)
    requires Reconciled(r) && SaturatedAt(r, current) && !CoolingDown(LimitsOf(r.spec, r.before, r.readings.now))
    requires r.spec.min <= current <= r.spec.max && r.spec.max + r.spec.policy.upStep <= MAX_INT32
    ensures Climbs(r, current) && r.spec.policy.upStep >= 1
  {
    SaturatedReconcile(r, current, r.readings.targetReady.value);
  }

  // Before reconcile i the target is at start + i * step, or at its maximum.
  ghost predicate StandsAt(r: Reconciliation, spec: OptiScalerSpec, level: int) {
    && r.spec == spec && r.readings.targetScale.Some? && r.readings.targetScale.value == level
    && spec.min <= level <= spec.max && !CoolingDown(LimitsOf(r.spec, r.before, r.readings.now))
  }

  lemma LoopStep(a: Reconciliation, b: Reconciliation, spec: OptiScalerSpec, start: int32, i: nat)
    requires StandsAt(a, spec, Level(start, spec.max, spec.policy.upStep, i)) && Climbs(a, a.readings.targetScale.value)
      && Follows(a, b)
    requires spec.policy.upStep >= 1 && spec.min <= start <= spec.max
    ensures StandsAt(b, spec, Level(start, spec.max, spec.policy.upStep, i + 1))
  {
    NextIsReady(a, b, a.readings.targetScale.value);
    LevelStep(start, spec.max, spec.policy.upStep, i);
    LevelStep(start, spec.max, spec.policy.upStep, i + 1);
  }

  lemma {:induction false} LoopStands(loop: seq<Reconciliation>, start: int32, i: nat)
    requires Persists(loop, start) && i < |loop|
    ensures StandsAt(loop[i], loop[0].spec, Level(start, loop[0].spec.max, loop[0].spec.policy.upStep, i))
    ensures Climbs(loop[i], loop[i].readings.targetScale.value) && loop[0].spec.policy.upStep >= 1
  {
    var spec := loop[0].spec;
    if i > 0 {
      LoopStands(loop, start, i - 1);
      LoopStep(loop[i - 1], loop[i], spec, start, i - 1);
    }
    assert Reconciled(loop[i]);
    LoopReconcile(loop[i], loop[i].readings.targetScale.value);
  }

  // Reconcile i of the climb, in numbers.
  predicate OnCourse(r: Reconciliation, start: int, max: int, step: int, i: nat) {
    && step >= 1 && r.readings.targetScale.Some?
    && r.readings.targetScale.value == Level(start, max, step, i)
    && ReplicasAfter(r) == Level(start, max, step, i + 1)
    && (r.write.Some? <==> i < (max - start + step - 1) / step)
  }

  lemma StandingIsOnCourse(r: Reconciliation, spec: OptiScalerSpec, start: int32, i: nat)
    requires spec.policy.upStep >= 1 && start <= spec.max
    requires StandsAt(r, spec, Level(start, spec.max, spec.policy.upStep, i)) && Climbs(r, r.readings.targetScale.value)
    ensures OnCourse(r, start, spec.max, spec.policy.upStep, i)
  {
    LevelStep(start, spec.max, spec.policy.upStep, i);
    StepsNeeded(spec.max - start, spec.policy.upStep, i);
  }

  // A persistently saturated target climbs by full steps to its maximum: reconcile
  // i writes exactly while start + i * step is below it, so it takes
  // ceil((max - start) / step) writes and then no more.
  lemma SaturationReachesMaximum(loop: seq<Reconciliation>, start: int32, i: nat)
    requires Persists(loop, start) && i < |loop|
    ensures OnCourse(loop[i], start, loop[0].spec.max, loop[0].spec.policy.upStep, i)
  {
    LoopStands(loop, start, i);
    StandingIsOnCourse(loop[i], loop[0].spec, start, i);
  }

  // i is below the rounded-up quotient exactly when i steps are not enough.
  lemma StepsNeeded(d: int, step: int, i: nat)
    requires d >= 0 && step >= 1
    ensures i < (d + step - 1) / step <==> i * step < d
  {
    var q := (d + step - 1) / step;
    assert q * step <= d + step - 1 < q * step + step;
    if i < q {
      SmallerProduct(i + 1, q, step);
      assert (i + 1) * step == i * step + step;
    } else {
      SmallerProduct(q, i, step);
    }
  }

  lemma SmallerProduct(a: int, b: int, step: int)
    requires a <= b && step >= 0
    ensures a * step <= b * step
  {
  }
}
