// One reconcile from its inputs to its effects: exactly when it writes which scale,
// and exactly what it remembers in the status.
module ReconcileLaws {
  import opened Values
  import opened Samples
  import opened Observation
  import opened HistoryCache
  import opened Policy
  import opened Spec
  import opened Controller
  import opened WriteLaws
  import opened PrescaleLaws
  import L = ControllerLaws
  import V = VerdictLaws
  import P = Prediction
  import R = Readiness
  import N = ReadinessLaws
  import C = CapacityEstimate

  // ----- The guard -----

  lemma GuardIff(readings: Readings, s: OptiScalerSpec, current: int32, ready: int32)
    requires V.ServingKnown(readings, ready)
    ensures RealizationPending(TargetSeen(s, readings, current, ready)) <==> !AllServe(readings, ready)
  {
    V.ServingIff(readings, ready);
    var n := readings.effective.value.v.Floor;
    EffectiveCountIff(readings.effective, ready, n);
  }

  // Only a scaling of the target is held back, for as long as some Ready replica
  // does not serve; it then asks for what was requested.
  lemma GuardedDecision(d: Decision, s: OptiScalerSpec, readings: Readings, current: int32, ready: int32)
    requires V.ServingKnown(readings, ready)
    ensures HoldUnrealized(d, TargetSeen(s, readings, current, ready), current) ==
      if d.chosen == "target" && d.action in {ScaleTarget, PrescaleTarget} && !AllServe(readings, ready)
      then Decision(Hold, "target", current, current, Unrealized)
      else d
  {
    GuardIff(readings, s, current, ready);
  }

  // ----- The decision of a reconcile -----

  lemma OnlyHoldsArePredicted(i: P.Inputs, demand: seq<Sample>, capacity: seq<Sample>)
    ensures !i.current.action.Hold? ==> P.PredictionOf(i, demand, capacity) == i.current
    ensures i.current.action.Hold? ==> P.PredictionOf(i, demand, capacity).action in {Hold, PrescaleTarget}
  {
  }

  lemma PredictedIs(m: Histories, key: string, s: OptiScalerSpec, status: Status, readings: Readings, current: int32,
      ready: int32)
    ensures var r, p := Reactive(s, status, readings, current, ready),
        Predicted(m, key, s, status, readings, current, ready);
      && (!r.action.Hold? ==> p == r)
      && (r.action.Hold? ==> p.action in {Hold, PrescaleTarget})
      && (!s.prediction.enabled ==> p == r)
  {
    if s.prediction.enabled {
      var i := InputsOf(s, status, readings, current, ready);
      var entry := P.HistoriesAfter(m, key, i);
      OnlyHoldsArePredicted(i, entry.demand, entry.capacity);
    }
  }

  lemma TargetGuarded(p: Decision, s: OptiScalerSpec, status: Status, readings: Readings, current: int32, ready: int32,
      margin: real)
    requires ValidSpec(s)
    requires p.action.ScaleTarget? <==> TargetWanted(s, status, readings, current, ready, margin)
    requires p.action.ScaleTarget? ==> p.chosen == "target"
    ensures var d := HoldUnrealized(p, TargetSeen(s, readings, current, ready), current);
      && (d.action.ScaleTarget? <==> TargetDue(s, status, readings, current, ready, margin))
      && (d.action.ScaleTarget? ==> d == p)
  {
    if p.action.ScaleTarget? {
      GuardedDecision(p, s, readings, current, ready);
    }
  }

  // The prediction leaves a reactive scaling alone and adds none of its kind.
  lemma ScalingIsReactive(m: Histories, key: string, s: OptiScalerSpec, status: Status, readings: Readings,
      current: int32, ready: int32)
    ensures var r, p := Reactive(s, status, readings, current, ready),
        Predicted(m, key, s, status, readings, current, ready);
      && (p.action.ScaleTarget? <==> r.action.ScaleTarget?)
      && (p.action.ScaleDependency? <==> r.action.ScaleDependency?)
      && (p.action.ScaleTarget? || p.action.ScaleDependency? ==> p == r)
  {
    PredictedIs(m, key, s, status, readings, current, ready);
  }

  lemma TargetDecidedIff(m: Histories, key: string, s: OptiScalerSpec, status: Status, readings: Readings,
      current: int32, ready: int32, margin: real)
    requires ValidSpec(s) && V.IsMargin(s, margin)
    ensures var d := FinalDecision(m, key, s, status, readings, current, ready);
      && (d.action.ScaleTarget? <==> TargetDue(s, status, readings, current, ready, margin))
      && (d.action.ScaleTarget? ==>
          d.chosen == "target" && d.current == current && d.desired == Raised(current, s.max, s.policy.upStep))
  {
    ScalingIsReactive(m, key, s, status, readings, current, ready);
    ReactiveTargetIff(s, status, readings, current, ready, margin);
    var p := Predicted(m, key, s, status, readings, current, ready);
    TargetGuarded(p, s, status, readings, current, ready, margin);
  }

  lemma DependencyUnguarded(p: Decision, t: TargetObservation, current: int32, name: string)
    requires name != "target"
    ensures var d := HoldUnrealized(p, t, current);
      && (d.action.ScaleDependency? && d.chosen == name <==> p.action.ScaleDependency? && p.chosen == name)
      && (d.action.ScaleDependency? ==> d == p)
  {
  }

  lemma DependencyDecidedIff(m: Histories, key: string, s: OptiScalerSpec, status: Status, readings: Readings,
      current: int32, ready: int32, margin: real, k: nat)
    requires ValidSpec(s) && V.IsMargin(s, margin) && k < |s.dependencies|
    ensures var d := FinalDecision(m, key, s, status, readings, current, ready);
      && (d.action.ScaleDependency? && d.chosen == s.dependencies[k].name <==>
          DependencyDue(s, status, readings, current, ready, margin, k))
      && (d.action.ScaleDependency? ==> d == Reactive(s, status, readings, current, ready))
  {
    NotTheTarget(s, k);
    ScalingIsReactive(m, key, s, status, readings, current, ready);
    ReactiveDependencyIff(s, status, readings, current, ready, margin, k);
    DependencyUnguarded(Predicted(m, key, s, status, readings, current, ready),
                        TargetSeen(s, readings, current, ready), current, s.dependencies[k].name);
  }

  lemma NotTheTarget(s: OptiScalerSpec, k: nat)
    requires ValidSpec(s) && k < |s.dependencies|
    ensures s.dependencies[k].name != "target"
  {
    assert s.dependencies[k] in s.dependencies;
    assert ValidDependency(s.dependencies[k], s.workload.name);
  }

  lemma PrescaleServes(s: OptiScalerSpec, status: Status, readings: Readings, current: int32, ready: int32,
      demand: seq<Sample>, capacity: seq<Sample>, safe: real)
    requires ValidSpec(s) && s.prediction.enabled
    requires PrescaleDue(s, status, readings, current, ready, demand, capacity, safe)
    ensures V.ServingKnown(readings, ready) && AllServe(readings, ready)
  {
  }

  lemma PrescaleFinalIff(m: Histories, key: string, s: OptiScalerSpec, status: Status, readings: Readings,
      current: int32, ready: int32, efficiency: real, safe: real)
    requires ValidSpec(s) && s.prediction.enabled
    requires SteadyNow(s, readings, current, ready) ==> IsEfficiency(readings, efficiency)
    requires IsSafe(s, CapacityNow(m, key, readings, efficiency), ready, safe)
    ensures FinalDecision(m, key, s, status, readings, current, ready).action.PrescaleTarget? <==>
      PrescaleDue(s, status, readings, current, ready, DemandNow(m, key, readings),
                  CapacityNow(m, key, readings, efficiency), safe)
  {
    PrescaleDecidedIff(m, key, s, status, readings, current, ready, efficiency, safe);
    var p := Predicted(m, key, s, status, readings, current, ready);
    if p.action.PrescaleTarget? {
      PrescaleServes(s, status, readings, current, ready, DemandNow(m, key, readings),
                     CapacityNow(m, key, readings, efficiency), safe);
      GuardedDecision(p, s, readings, current, ready);
    }
  }

  lemma PrescaleNumbers(m: Histories, key: string, s: OptiScalerSpec, status: Status, readings: Readings,
      current: int32, ready: int32)
    requires ValidSpec(s) && FinalDecision(m, key, s, status, readings, current, ready).action.PrescaleTarget?
    ensures var d := FinalDecision(m, key, s, status, readings, current, ready);
      d.chosen == "target" && d.current == current && d.desired == Raised(current, s.max, s.policy.upStep) != current
  {
    var p := Predicted(m, key, s, status, readings, current, ready);
    L.GuardOnlyHolds(p, TargetSeen(s, readings, current, ready), current);
    L.ReactiveNeverPrescales(s, status, readings, current, ready);
    var i := InputsOf(s, status, readings, current, ready);
    var entry := P.HistoriesAfter(m, key, i);
    L.PredictionRaises(i, entry.demand, entry.capacity);
    HealthyHolds(s, status, readings, current, ready);
    CanRiseIff(s, status, readings.now, TargetComponent(s, current));
  }

  // ----- The write -----

  // The target is raised now, because it is saturated or because its demand will
  // outgrow it.
  ghost predicate TargetRises(m: Histories, key: string, s: OptiScalerSpec, status: Status, readings: Readings,
      current: int32, ready: int32, margin: real, efficiency: real, safe: real)
    requires ValidSpec(s)
  {
    || TargetDue(s, status, readings, current, ready, margin)
    || (s.prediction.enabled && PrescaleDue(s, status, readings, current, ready, DemandNow(m, key, readings),
                                            CapacityNow(m, key, readings, efficiency), safe))
  }

  // The figures a prescale is decided with.
  ghost predicate Figures(m: Histories, key: string, s: OptiScalerSpec, readings: Readings, current: int32,
      ready: int32, margin: real, efficiency: real, safe: real)
    requires ValidSpec(s)
  {
    && V.IsMargin(s, margin)
    && (s.prediction.enabled ==>
        && (SteadyNow(s, readings, current, ready) ==> IsEfficiency(readings, efficiency))
        && IsSafe(s, CapacityNow(m, key, readings, efficiency), ready, safe))
  }

  lemma RisingMoves(replicas: int32, min: int32, max: int32, step: int32)
    requires CanRise(replicas, min, max, step) && step >= 1
    ensures Raised(replicas, max, step) != replicas && -0x8000_0000 <= Raised(replicas, max, step) <= 0x7fff_ffff
  {
  }

  lemma TargetRisesIff(m: Histories, key: string, s: OptiScalerSpec, status: Status, readings: Readings, current: int32,
      ready: int32, margin: real, efficiency: real, safe: real)
    requires ValidSpec(s) && Figures(m, key, s, readings, current, ready, margin, efficiency, safe)
    ensures var d := FinalDecision(m, key, s, status, readings, current, ready);
      && (d.action.ScaleTarget? || d.action.PrescaleTarget? <==>
          TargetRises(m, key, s, status, readings, current, ready, margin, efficiency, safe))
      && (d.action.ScaleTarget? || d.action.PrescaleTarget? ==>
          && d.chosen == "target" && d.current == current
          && d.desired == Raised(current, s.max, s.policy.upStep) && d.desired != current)
  {
    TargetDecidedIff(m, key, s, status, readings, current, ready, margin);
    var d := FinalDecision(m, key, s, status, readings, current, ready);
    if s.prediction.enabled {
      PrescaleFinalIff(m, key, s, status, readings, current, ready, efficiency, safe);
    } else {
      NoPrediction(m, key, s, status, readings, current, ready);
    }
    if d.action.PrescaleTarget? {
      PrescaleNumbers(m, key, s, status, readings, current, ready);
    }
    if d.action.ScaleTarget? {
      RisingMoves(current, s.min, s.max, s.policy.upStep);
    }
  }

  lemma NoPrediction(m: Histories, key: string, s: OptiScalerSpec, status: Status, readings: Readings, current: int32,
      ready: int32)
    requires !s.prediction.enabled
    ensures !FinalDecision(m, key, s, status, readings, current, ready).action.PrescaleTarget?
  {
    L.ReactiveNeverPrescales(s, status, readings, current, ready);
    L.GuardOnlyHolds(Reactive(s, status, readings, current, ready), TargetSeen(s, readings, current, ready), current);
  }

  // A scaled dependency is a configured one.
  lemma ScaledDependency(m: Histories, key: string, s: OptiScalerSpec, status: Status, readings: Readings,
      current: int32, ready: int32, margin: real) returns (k: nat)
    requires ValidSpec(s) && V.IsMargin(s, margin)
    requires FinalDecision(m, key, s, status, readings, current, ready).action.ScaleDependency?
    ensures k < |s.dependencies|
    ensures FinalDecision(m, key, s, status, readings, current, ready).chosen == s.dependencies[k].name
  {
    var p := Predicted(m, key, s, status, readings, current, ready);
    L.GuardOnlyHolds(p, TargetSeen(s, readings, current, ready), current);
    ScalingIsReactive(m, key, s, status, readings, current, ready);
    L.ActionFollowsVerdict(s, status, readings, current, ready);
    k := L.BottleneckIndex(s, readings, current, ready);
  }

  // The dependency k is raised now, to this.
  ghost predicate DependencyRises(s: OptiScalerSpec, status: Status, readings: Readings, current: int32, ready: int32,
      margin: real, k: nat, w: Write)
    requires ValidSpec(s)
  {
    && k < |s.dependencies| && DependencyDue(s, status, readings, current, ready, margin, k)
    && w.workload == s.dependencies[k].workload.name && w.from == ReadingAt(readings, k).scale.value
    && w.to == Raised(w.from, s.dependencies[k].max, s.policy.upStep)
  }

  lemma DependencyRisesIff(m: Histories, key: string, s: OptiScalerSpec, status: Status, readings: Readings,
      current: int32, ready: int32, margin: real, k: nat)
    requires ValidSpec(s) && V.IsMargin(s, margin) && k < |s.dependencies|
    ensures var d, r := FinalDecision(m, key, s, status, readings, current, ready), ReadingAt(readings, k);
      && (d.action.ScaleDependency? && d.chosen == s.dependencies[k].name <==>
          DependencyDue(s, status, readings, current, ready, margin, k))
      && (d.action.ScaleDependency? && d.chosen == s.dependencies[k].name ==>
          && r.scale.Some? && d.current == r.scale.value && d.desired != d.current
          && d.desired == Raised(r.scale.value, s.dependencies[k].max, s.policy.upStep))
  {
    DependencyDecidedIff(m, key, s, status, readings, current, ready, margin, k);
    ReactiveDependencyIff(s, status, readings, current, ready, margin, k);
    if DependencyDue(s, status, readings, current, ready, margin, k) {
      RisingMoves(ReadingAt(readings, k).scale.value, s.dependencies[k].min, s.dependencies[k].max, s.policy.upStep);
    }
  }

  lemma EntriesFound(s: OptiScalerSpec, readings: Readings, current: int32)
    requires ValidSpec(s)
    ensures var entries := Entries(s.dependencies, readings, ScaleEntry(s.workload.name, current));
      && "target" in entries && entries["target"] == ScaleEntry(s.workload.name, current)
      && forall k :: 0 <= k < |s.dependencies| ==>
          && s.dependencies[k].name in entries
          && entries[s.dependencies[k].name]
            == ScaleEntry(s.dependencies[k].workload.name, ScaleOr0(ReadingAt(readings, k)))
  {
    forall d | d in s.dependencies
      ensures d.name != "target"
    {
      assert ValidDependency(d, s.workload.name);
    }
    L.TargetAt(s.dependencies, readings, ScaleEntry(s.workload.name, current));
    forall k | 0 <= k < |s.dependencies|
      ensures s.dependencies[k].name in Entries(s.dependencies, readings, ScaleEntry(s.workload.name, current))
      ensures Entries(s.dependencies, readings, ScaleEntry(s.workload.name, current))[s.dependencies[k].name]
        == ScaleEntry(s.dependencies[k].workload.name, ScaleOr0(ReadingAt(readings, k)))
    {
      L.DependencyAt(s.dependencies, readings, ScaleEntry(s.workload.name, current), k);
    }
  }

  // What the write is for, once a decision is given.
  ghost predicate Effect(s: OptiScalerSpec, readings: Readings, current: int32, d: Decision, w: Write) {
    || ((d.action.ScaleTarget? || d.action.PrescaleTarget?)
        && w == Write(s.workload.name, current, d.desired))
    || (d.action.ScaleDependency? && exists k: nat ::
          k < |s.dependencies| && d.chosen == s.dependencies[k].name && ReadingAt(readings, k).scale.Some?
          && w == Write(s.dependencies[k].workload.name, ReadingAt(readings, k).scale.value, d.desired))
  }

  lemma EffectIff(s: OptiScalerSpec, readings: Readings, current: int32, d: Decision, w: Write)
    requires ValidSpec(s) && (Scales(d.action) ==> d.desired != d.current)
    requires d.action.ScaleTarget? || d.action.PrescaleTarget? ==> d.chosen == "target"
    requires d.action.ScaleDependency? ==> exists k: nat ::
      k < |s.dependencies| && d.chosen == s.dependencies[k].name && ReadingAt(readings, k).scale.Some?
    ensures var entries := Entries(s.dependencies, readings, ScaleEntry(s.workload.name, current));
      WriteFor(d, entries, readings) == Some(w) <==> readings.scaleUpdated && Effect(s, readings, current, d, w)
  {
    EntriesFound(s, readings, current);
  }

  // The write that is due.
  ghost predicate Due(m: Histories, key: string, s: OptiScalerSpec, status: Status, readings: Readings, current: int32,
      ready: int32, margin: real, efficiency: real, safe: real, w: Write)
    requires ValidSpec(s)
  {
    || (TargetRises(m, key, s, status, readings, current, ready, margin, efficiency, safe)
        && w.workload == s.workload.name && w.from == current && w.to == Raised(current, s.max, s.policy.upStep))
    || exists k: nat :: DependencyRises(s, status, readings, current, ready, margin, k, w)
  }

  lemma DecidedWrite(m: Histories, key: string, s: OptiScalerSpec, status: Status, readings: Readings, current: int32,
      ready: int32, margin: real, efficiency: real, safe: real)
    returns (d: Decision)
    requires ValidSpec(s) && Figures(m, key, s, readings, current, ready, margin, efficiency, safe)
    ensures d == FinalDecision(m, key, s, status, readings, current, ready)
    ensures d.action.ScaleTarget? || d.action.PrescaleTarget? <==>
      TargetRises(m, key, s, status, readings, current, ready, margin, efficiency, safe)
    ensures d.action.ScaleTarget? || d.action.PrescaleTarget? ==>
      && d.chosen == "target" && d.current == current
      && d.desired == Raised(current, s.max, s.policy.upStep) && d.desired != current
    ensures forall k: nat :: k < |s.dependencies| ==>
      && (d.action.ScaleDependency? && d.chosen == s.dependencies[k].name <==>
          DependencyDue(s, status, readings, current, ready, margin, k))
      && (d.action.ScaleDependency? && d.chosen == s.dependencies[k].name ==>
          && ReadingAt(readings, k).scale.Some? && d.current == ReadingAt(readings, k).scale.value
          && d.desired == Raised(d.current, s.dependencies[k].max, s.policy.upStep) && d.desired != d.current)
    ensures d.action.ScaleDependency? ==> exists k: nat :: k < |s.dependencies| && d.chosen == s.dependencies[k].name
  {
    d := FinalDecision(m, key, s, status, readings, current, ready);
    TargetRisesIff(m, key, s, status, readings, current, ready, margin, efficiency, safe);
    forall k: nat | k < |s.dependencies|
      ensures d.action.ScaleDependency? && d.chosen == s.dependencies[k].name <==>
        DependencyDue(s, status, readings, current, ready, margin, k)
      ensures d.action.ScaleDependency? && d.chosen == s.dependencies[k].name ==>
        && ReadingAt(readings, k).scale.Some? && d.current == ReadingAt(readings, k).scale.value
        && d.desired == Raised(d.current, s.dependencies[k].max, s.policy.upStep) && d.desired != d.current
    {
      DependencyRisesIff(m, key, s, status, readings, current, ready, margin, k);
    }
    if d.action.ScaleDependency? {
      var k := ScaledDependency(m, key, s, status, readings, current, ready, margin);
    }
  }

  // From the decision to the write that is due.
  lemma EffectIsDue(m: Histories, key: string, s: OptiScalerSpec, status: Status, readings: Readings, current: int32,
      ready: int32, margin: real, efficiency: real, safe: real, d: Decision, w: Write)
    requires ValidSpec(s)
    requires d.action.ScaleTarget? || d.action.PrescaleTarget? <==>
      TargetRises(m, key, s, status, readings, current, ready, margin, efficiency, safe)
    requires d.action.ScaleTarget? || d.action.PrescaleTarget? ==> d.desired == Raised(current, s.max, s.policy.upStep)
    requires forall k: nat :: k < |s.dependencies| ==>
      && (d.action.ScaleDependency? && d.chosen == s.dependencies[k].name <==>
          DependencyDue(s, status, readings, current, ready, margin, k))
      && (d.action.ScaleDependency? && d.chosen == s.dependencies[k].name ==>
          && ReadingAt(readings, k).scale.Some? && d.current == ReadingAt(readings, k).scale.value
          && d.desired == Raised(d.current, s.dependencies[k].max, s.policy.upStep) && d.desired != d.current)
    ensures Effect(s, readings, current, d, w) <==>
      Due(m, key, s, status, readings, current, ready, margin, efficiency, safe, w)
  {
    if k: nat :| DependencyRises(s, status, readings, current, ready, margin, k, w) {
      assert d.chosen == s.dependencies[k].name;
    }
    if d.action.ScaleDependency? && Effect(s, readings, current, d, w) {
      var k: nat :| k < |s.dependencies| && d.chosen == s.dependencies[k].name && ReadingAt(readings, k).scale.Some?
          && w == Write(s.dependencies[k].workload.name, ReadingAt(readings, k).scale.value, d.desired);
      assert DependencyRises(s, status, readings, current, ready, margin, k, w);
    }
  }

  // A reconcile that can read the cluster writes exactly what is due, if the write
  // goes through. Between the inputs and the write nothing else counts.
  lemma WriteIff(m: Histories, key: string, s: OptiScalerSpec, status: Status, readings: Readings, current: int32,
      ready: int32, margin: real, efficiency: real, safe: real, w: Write)
    requires ValidSpec(s) && readings.prometheusReady
    requires readings.targetScale == Some(current) && readings.targetReady == Some(ready)
    requires Figures(m, key, s, readings, current, ready, margin, efficiency, safe)
    ensures WriteOf(m, key, s, status, readings) == Some(w) <==>
      readings.scaleUpdated && Due(m, key, s, status, readings, current, ready, margin, efficiency, safe, w)
  {
    var d := DecidedWrite(m, key, s, status, readings, current, ready, margin, efficiency, safe);
    EffectIff(s, readings, current, d, w);
    EffectIsDue(m, key, s, status, readings, current, ready, margin, efficiency, safe, d, w);
  }

  // Otherwise nothing is written, and neither the status nor the cache changes.
  lemma UnreadableChangesNothing(m: Histories, key: string, s: OptiScalerSpec, status: Status, readings: Readings)
    requires !ValidSpec(s) || !readings.prometheusReady || readings.targetScale.None? || readings.targetReady.None?
    ensures WriteOf(m, key, s, status, readings).None? && StatusAfter(m, key, s, status, readings) == status
    ensures CacheAfter(m, key, s, status, readings) == m
  {
  }

  // Every reconcile has figures.
  lemma FiguresExist(m: Histories, key: string, s: OptiScalerSpec, readings: Readings, current: int32, ready: int32)
    returns (margin: real, efficiency: real, safe: real)
    requires ValidSpec(s)
    ensures Figures(m, key, s, readings, current, ready, margin, efficiency, safe)
  {
    margin, efficiency, safe := ConfiguredMargin(s.prediction.margin), 0.0, 0.0;
    if s.prediction.enabled {
      if SteadyNow(s, readings, current, ready) {
        efficiency := EfficiencyOf(s, readings, current, ready);
      }
      var capacity := CapacityNow(m, key, readings, efficiency);
      if ThreeLearned(capacity) {
        safe := SafeOf(s, capacity, ready);
      }
    }
  }

  lemma EfficiencyOf(s: OptiScalerSpec, readings: Readings, current: int32, ready: int32) returns (efficiency: real)
    requires ValidSpec(s) && s.prediction.enabled && SteadyNow(s, readings, current, ready)
    ensures IsEfficiency(readings, efficiency)
  {
    var load, successes := readings.aggregate.value.v, readings.requestRate.value.v - readings.errorRequestRate.value.v;
    V.SafeLimit(s.metric.physicalLimit.v, s.prediction.margin.v);
    LoadIsPositive(s.metric.physicalLimit.v * s.prediction.margin.v, ready, load);
    efficiency := Quotient(successes, load);
  }

  lemma Quotient(a: real, n: real) returns (q: real)
    requires n > 0.0
    ensures q * n == a
  {
    q := a / n;
  }

  lemma SafeOf(s: OptiScalerSpec, capacity: seq<Sample>, ready: int32) returns (safe: real)
    requires ValidSpec(s) && s.prediction.enabled && ThreeLearned(capacity)
    ensures IsSafe(s, capacity, ready, safe)
  {
    safe := C.Conservative(C.Efficiencies(capacity)) * s.metric.physicalLimit.v * s.prediction.margin.v * ready as real;
  }

  // ----- The status -----

  ghost predicate SomethingDue(m: Histories, key: string, s: OptiScalerSpec, status: Status, readings: Readings,
      current: int32, ready: int32, margin: real, efficiency: real, safe: real)
    requires ValidSpec(s)
  {
    exists w :: Due(m, key, s, status, readings, current, ready, margin, efficiency, safe, w)
  }

  lemma EffectExists(s: OptiScalerSpec, readings: Readings, current: int32, d: Decision)
    requires Scales(d.action) ==> d.desired != d.current
    requires d.action.ScaleDependency? ==> exists k: nat ::
      k < |s.dependencies| && d.chosen == s.dependencies[k].name && ReadingAt(readings, k).scale.Some?
    ensures WritesScale(d) <==> exists w :: Effect(s, readings, current, d, w)
  {
    if d.action.ScaleTarget? || d.action.PrescaleTarget? {
      assert Effect(s, readings, current, d, Write(s.workload.name, current, d.desired));
    } else if d.action.ScaleDependency? {
      var k: nat :|
        k < |s.dependencies| && d.chosen == s.dependencies[k].name && ReadingAt(readings, k).scale.Some?;
      var w := Write(s.dependencies[k].workload.name, ReadingAt(readings, k).scale.value, d.desired);
      assert Effect(s, readings, current, d, w);
    }
  }

  lemma WritesIffDue(m: Histories, key: string, s: OptiScalerSpec, status: Status, readings: Readings, current: int32,
      ready: int32, margin: real, efficiency: real, safe: real)
    requires ValidSpec(s) && Figures(m, key, s, readings, current, ready, margin, efficiency, safe)
    ensures WritesScale(FinalDecision(m, key, s, status, readings, current, ready)) <==>
      SomethingDue(m, key, s, status, readings, current, ready, margin, efficiency, safe)
  {
    var d := DecidedWrite(m, key, s, status, readings, current, ready, margin, efficiency, safe);
    EffectExists(s, readings, current, d);
    forall w
      ensures Effect(s, readings, current, d, w) <==>
        Due(m, key, s, status, readings, current, ready, margin, efficiency, safe, w)
    {
      EffectIsDue(m, key, s, status, readings, current, ready, margin, efficiency, safe, d, w);
    }
  }

  // The stored status: the time of a write that went through, and what was learned;
  // a failed write, or a failed status update, leaves it as it was.
  predicate Stores(before: Status, after: Status, due: bool, readings: Readings, learned: R.Learned) {
    if !readings.statusUpdated || (due && !readings.scaleUpdated) then after == before
    else after.learned == learned && after.lastScale == if due then Some(readings.now) else before.lastScale
  }

  lemma StoresFor(d: Decision, due: bool, learned: R.Learned, status: Status, readings: Readings)
    requires WritesScale(d) <==> due
    ensures Stores(status, StatusFor(d, learned, status, readings), due, readings, learned)
  {
  }

  lemma StatusIs(m: Histories, key: string, s: OptiScalerSpec, status: Status, readings: Readings, current: int32,
      ready: int32, margin: real, efficiency: real, safe: real)
    requires ValidSpec(s) && readings.prometheusReady
    requires readings.targetScale == Some(current) && readings.targetReady == Some(ready)
    requires Figures(m, key, s, readings, current, ready, margin, efficiency, safe)
    ensures Stores(status, StatusAfter(m, key, s, status, readings),
                   SomethingDue(m, key, s, status, readings, current, ready, margin, efficiency, safe), readings,
                   LearnedAfter(s, status, readings, current, ready))
  {
    WritesIffDue(m, key, s, status, readings, current, ready, margin, efficiency, safe);
    StoresFor(FinalDecision(m, key, s, status, readings, current, ready),
              SomethingDue(m, key, s, status, readings, current, ready, margin, efficiency, safe),
              LearnedAfter(s, status, readings, current, ready), status, readings);
  }

  // What is learned: the longest clean start of the agreed revision, when a pod is
  // Ready; without one, the old triple stays.
  lemma LearnedIs(s: OptiScalerSpec, status: Status, readings: Readings, current: int32, ready: int32, hash: string,
      uid: string)
    requires s.prediction.enabled && readings.view.pods.Some? && readings.view.replicaSets.Some?
    requires N.Agreed(readings.view.deployment, readings.view.replicaSets.value, hash, uid)
    requires R.ReadinessOf(readings.view).value.ready >= 1
    ensures NoCleanStart(readings.view.pods.value, hash, uid) ==>
      LearnedAfter(s, status, readings, current, ready) == status.learned
    ensures forall lead, readyAt :: N.LongestStart(readings.view.pods.value, hash, uid, lead, readyAt) ==>
      LearnedAfter(s, status, readings, current, ready)
        == R.Learned(Some(Finite(lead as real / 1_000_000_000.0)), Some(readyAt), hash)
  {
    N.RevisionIff(readings.view, hash, uid);
    StartupSeen(readings.view.pods.value, hash, uid);
  }

  // Nothing is learned without the prediction, a pod list, a Ready pod or an agreed
  // revision.
  lemma NothingLearned(s: OptiScalerSpec, status: Status, readings: Readings, current: int32, ready: int32)
    requires || !s.prediction.enabled || readings.view.pods.None? || readings.view.replicaSets.None?
             || R.ReadinessOf(readings.view).value.ready < 1
             || forall hash, uid :: !N.Agreed(readings.view.deployment, readings.view.replicaSets.value, hash, uid)
    ensures LearnedAfter(s, status, readings, current, ready) == status.learned
  {
    forall hash, uid
      ensures R.RevisionSeen(readings.view) == Some(R.Revision(hash, uid)) <==>
        readings.view.replicaSets.Some?
        && N.Agreed(readings.view.deployment, readings.view.replicaSets.value, hash, uid)
    {
      N.RevisionIff(readings.view, hash, uid);
    }
    var seen := R.RevisionSeen(readings.view);
    if seen.Some? {
      assert seen == Some(R.Revision(seen.value.identity, seen.value.uid));
    }
  }

  // ----- The cache -----

  // The cache is told the demand seen now, and the efficiency if it is steady.
  lemma CacheIs(m: Histories, key: string, s: OptiScalerSpec, status: Status, readings: Readings, current: int32,
      ready: int32, efficiency: real)
    requires ValidSpec(s) && readings.prometheusReady
    requires readings.targetScale == Some(current) && readings.targetReady == Some(ready)
    requires s.prediction.enabled && SteadyNow(s, readings, current, ready) ==> IsEfficiency(readings, efficiency)
    ensures !s.prediction.enabled ==> CacheAfter(m, key, s, status, readings) == m
    ensures s.prediction.enabled ==> CacheAfter(m, key, s, status, readings) == Updated(
      m, key,
      if Usable(readings.predictive) then Sample(readings.predictive.observedAt, readings.predictive.value)
        else NO_SAMPLE,
      if SteadyNow(s, readings, current, ready)
        then Sample(Older(readings.requestRate.observedAt, readings.errorRequestRate.observedAt), Finite(efficiency))
        else NO_SAMPLE,
      readings.now)
  {
    if s.prediction.enabled {
      EfficiencyIsLearned(s, status, readings, current, ready, efficiency);
    }
  }
}
