// Runs of the controller over any number of resources that share one history
// cache: any sequence of reconciles, each with its own specification, clock and
// readings, each starting from the status the last one of its resource stored.
module ControllerRuns {
  import opened Values
  import opened HistoryCache
  import opened Policy
  import opened Spec
  import opened Controller
  import opened ControllerLaws
  import P = Prediction
  import R = Readiness

  datatype Reconciliation = Reconciliation(
    key: string, spec: OptiScalerSpec, readings: Readings,
    before: Status, after: Status,
    cache: Histories, cacheAfter: Histories,
    write: Option<Write>)

  // One reconcile of the program.
  ghost predicate Reconciled(r: Reconciliation) {
    && r.write == WriteOf(r.cache, r.key, r.spec, r.before, r.readings)
    && r.after == StatusAfter(r.cache, r.key, r.spec, r.before, r.readings)
    && r.cacheAfter == CacheAfter(r.cache, r.key, r.spec, r.before, r.readings)
  }

  // The status a resource has after a run; a new resource has an empty one.
  function StatusStored(trace: seq<Reconciliation>, key: string): Status {
    if |trace| == 0 then NEW_STATUS
    else if Last(trace).key == key then Last(trace).after
    else StatusStored(trace[..|trace| - 1], key)
  }

  function CacheHeld(trace: seq<Reconciliation>): Histories {
    if |trace| == 0 then map[] else Last(trace).cacheAfter
  }

  ghost predicate IsRun(trace: seq<Reconciliation>) {
    |trace| == 0 ||
      var front := trace[..|trace| - 1];
      && IsRun(front)
      && Reconciled(Last(trace))
      && Last(trace).before == StatusStored(front, Last(trace).key)
      && Last(trace).cache == CacheHeld(front)
  }

  predicate ClockNondecreases(trace: seq<Reconciliation>) {
    forall i, j :: 0 <= i <= j < |trace| ==> trace[i].readings.now <= trace[j].readings.now
  }

  // The same run through the program: calling Reconcile on one cache object and
  // the stored status extends a run by one reconciliation.
  method RunStep(cache: PredictionCache, ghost trace: seq<Reconciliation>, status: Status, key: string,
      s: OptiScalerSpec, readings: Readings)
    returns (status': Status, write: Option<Write>, ghost r: Reconciliation)
    requires IsRun(trace) && cache.Valid() && cache.model == CacheHeld(trace) && status == StatusStored(trace, key)
      && key != ""
    modifies cache, cache.tags.Keys
    ensures cache.Valid() && cache.model == CacheHeld(trace + [r]) && IsRun(trace + [r])
    ensures r.key == key && r.spec == s && r.readings == readings && r.after == status' && r.write == write
  {
    ghost var m := cache.model;
    status', write := Reconcile(cache, key, s, status, readings);
    r := Reconciliation(key, s, readings, status, status', m, cache.model, write);
    assert (trace + [r])[..|trace|] == trace;
  }

  // ----- What one reconciliation promises, whatever happened before -----

  // A startup measured from the pods of this reconciliation: the longest among
  // the Ready, never restarted pods of the revision then current.
  ghost predicate MeasuredIn(r: Reconciliation, identity: string, startup: R.Startup) {
    var view := r.readings.view;
    && view.pods.Some? && R.RevisionSeen(view).Some? && R.RevisionSeen(view).value.identity == identity
    && R.IsLongest(view.pods.value, R.RevisionSeen(view).value, startup)
  }

  // The learned triple stands for a startup.
  predicate Remembers(learned: R.Learned, startup: R.Startup) {
    learned.leadSeconds == Some(Finite(Seconds(startup.lead))) && learned.observedAt == Some(startup.readyAt)
  }

  ghost predicate LearnedFrom(learned: R.Learned, r: Reconciliation) {
    exists startup :: Remembers(learned, startup) && MeasuredIn(r, learned.identity, startup)
  }

  // How the stored status moves.
  ghost predicate StatusMoves(r: Reconciliation) {
    && (r.write.Some? ==> !CoolingDown(LimitsOf(r.spec, r.before, r.readings.now)))
    && (r.write.Some? && r.readings.statusUpdated ==> r.after.lastScale == Some(r.readings.now))
    && (r.after.lastScale == r.before.lastScale || r.after.lastScale == Some(r.readings.now))
    && (r.after.learned == r.before.learned || LearnedFrom(r.after.learned, r))
  }

  // The evidence a reconciliation would use belongs to its current revision and
  // was either measured in it or learned before.
  lemma EvidenceSource(r: Reconciliation, current: int32, ready: int32)
    requires P.HasReadiness(P.EvidenceOf(InputsOf(r.spec, r.before, r.readings, current, ready)))
    ensures var e := P.EvidenceOf(InputsOf(r.spec, r.before, r.readings, current, ready));
      && R.RevisionSeen(r.readings.view).Some? && R.RevisionSeen(r.readings.view).value.identity == e.identity
      && (e.source.CurrentFreshSample? ==> MeasuredIn(r, e.identity, R.Startup(e.lead, e.observedAt)))
      && (e.source.PersistedLearnedSample? ==> r.before.learned.identity == e.identity)
  {
    var observed := R.ReadinessOf(r.readings.view).value;
    R.EvidenceIsForCurrentRevision(observed, r.before.learned);
    R.LongestIsMaximal(r.readings.view.pods.value, R.RevisionSeen(r.readings.view).value);
  }

  lemma LearnedHonestly(r: Reconciliation, current: int32, ready: int32)
    ensures var learned := LearnedAfter(r.spec, r.before, r.readings, current, ready);
      learned == r.before.learned || LearnedFrom(learned, r)
  {
    var learned := LearnedAfter(r.spec, r.before, r.readings, current, ready);
    if learned != r.before.learned {
      var e := P.EvidenceOf(InputsOf(r.spec, r.before, r.readings, current, ready));
      EvidenceSource(r, current, ready);
      assert Remembers(learned, R.Startup(e.lead, e.observedAt))
        && MeasuredIn(r, learned.identity, R.Startup(e.lead, e.observedAt));
    }
  }

  lemma EveryStatusMoves(r: Reconciliation)
    requires Reconciled(r)
    ensures StatusMoves(r)
  {
    if r.write.Some? {
      OneWriteIsSafe(r.cache, r.key, r.spec, r.before, r.readings, r.write.value);
    }
    if Decides(r.spec, r.readings) {
      LearnedHonestly(r, r.readings.targetScale.value, r.readings.targetReady.value);
      StatusFacts(DecisionOf(r.cache, r.key, r.spec, r.before, r.readings), EntriesOf(r.spec, r.readings),
                  LearnedAfter(r.spec, r.before, r.readings,
                               r.readings.targetScale.value, r.readings.targetReady.value),
                  r.before, r.readings);
    }
  }

  lemma StatusFacts(d: Decision, entries: map<string, ScaleEntry>, learned: R.Learned, status: Status,
      readings: Readings)
    ensures var after := StatusFor(d, learned, status, readings);
      && (after.lastScale == status.lastScale || after.lastScale == Some(readings.now))
      && (after.learned == status.learned || after.learned == learned)
      && (WriteFor(d, entries, readings).Some? && readings.statusUpdated ==> after.lastScale == Some(readings.now))
  {
  }

  // ----- Whole runs -----

  // The part of a run that the status laws need.
  ghost predicate Linked(trace: seq<Reconciliation>) {
    |trace| == 0 ||
      var front := trace[..|trace| - 1];
      Linked(front) && StatusMoves(Last(trace)) && Last(trace).before == StatusStored(front, Last(trace).key)
  }

  lemma {:induction false} RunIsLinked(trace: seq<Reconciliation>)
    requires IsRun(trace)
    ensures Linked(trace)
  {
    if |trace| > 0 {
      RunIsLinked(trace[..|trace| - 1]);
      EveryStatusMoves(Last(trace));
    }
  }

  lemma {:induction false} LinkedAt(trace: seq<Reconciliation>, j: nat)
    requires Linked(trace) && j < |trace|
    ensures Linked(trace[..j]) && StatusMoves(trace[j]) && trace[j].before == StatusStored(trace[..j], trace[j].key)
  {
    if j < |trace| - 1 {
      LinkedAt(trace[..|trace| - 1], j);
      assert trace[..|trace| - 1][..j] == trace[..j];
    }
  }

  lemma {:induction false} ReconciledAt(trace: seq<Reconciliation>, j: nat)
    requires IsRun(trace) && j < |trace|
    ensures Reconciled(trace[j])
  {
    if j < |trace| - 1 {
      ReconciledAt(trace[..|trace| - 1], j);
    }
  }

  lemma SafeWriteRaises(s: OptiScalerSpec, readings: Readings, w: Write)
    requires SafeWrite(s, readings, w)
    ensures 1 <= w.to - w.from <= s.policy.upStep
  {
  }

  // The write of a reconciliation is decided from a valid spec outside its
  // cooldown, goes to one of its workloads, and is safe exactly without overflow.
  ghost predicate GoodWrite(r: Reconciliation, w: Write) {
    && Decides(r.spec, r.readings) && !CoolingDown(LimitsOf(r.spec, r.before, r.readings.now))
    && IsWriteOf(r.spec, r.readings, w)
    && (SafeWrite(r.spec, r.readings, w) <==> w.from + r.spec.policy.upStep <= MAX_INT32)
  }

  lemma EveryWriteIsGood(r: Reconciliation, w: Write)
    requires Reconciled(r) && r.write == Some(w)
    ensures GoodWrite(r, w)
  {
    OneWriteIsSafe(r.cache, r.key, r.spec, r.before, r.readings, w);
  }

  // Replica safety over a whole run: while the addition fits in 32 bits every
  // write raises its component by 1..maxScaleUpStep within that component's
  // bounds, and only then, so no run without overflow ever lowers a count.
  lemma RunsOnlyRaise(trace: seq<Reconciliation>, j: nat, w: Write)
    requires IsRun(trace) && j < |trace| && trace[j].write == Some(w)
    ensures GoodWrite(trace[j], w)
    ensures w.from + trace[j].spec.policy.upStep <= MAX_INT32 ==> 1 <= w.to - w.from <= trace[j].spec.policy.upStep
  {
    ReconciledAt(trace, j);
    EveryWriteIsGood(trace[j], w);
    if w.from + trace[j].spec.policy.upStep <= MAX_INT32 {
      SafeWriteRaises(trace[j].spec, trace[j].readings, w);
    }
  }

  // After a remembered write, the last scale time never goes back before it.
  lemma {:induction false} LastScaleIsKept(trace: seq<Reconciliation>, i: nat)
    requires Linked(trace) && ClockNondecreases(trace) && i < |trace|
    requires trace[i].write.Some? && trace[i].readings.statusUpdated
    ensures var last := StatusStored(trace, trace[i].key).lastScale; last.Some? && last.value >= trace[i].readings.now
  {
    var n := |trace| - 1;
    if i < n {
      LastScaleIsKept(trace[..n], i);
      assert trace[i].readings.now <= trace[n].readings.now;
    }
  }

  // Any two writes of one resource, to whichever of its workloads, are at least
  // the cooldown of the later one apart, if the first was remembered.
  lemma WritesAreCooldownApart(trace: seq<Reconciliation>, i: nat, j: nat)
    requires IsRun(trace) && ClockNondecreases(trace) && i < j < |trace|
    requires trace[i].key == trace[j].key && trace[i].write.Some? && trace[j].write.Some?
    requires trace[i].readings.statusUpdated
    ensures trace[j].readings.now - trace[i].readings.now >= trace[j].spec.policy.cooldownSeconds * SECOND
  {
    RunIsLinked(trace);
    LinkedWritesApart(trace, i, j);
  }

  lemma LinkedWritesApart(trace: seq<Reconciliation>, i: nat, j: nat)
    requires Linked(trace) && ClockNondecreases(trace) && i < j < |trace|
    requires trace[i].readings.statusUpdated && trace[i].key == trace[j].key && trace[i].write.Some?
      && trace[j].write.Some?
    ensures trace[j].readings.now - trace[i].readings.now >= trace[j].spec.policy.cooldownSeconds * SECOND
  {
    LinkedAt(trace, j);
    LastScaleIsKept(trace[..j], i);
    assert trace[i].readings.now <= trace[j].readings.now;
  }

  // What is learned about a resource was measured in some reconcile of it.
  lemma {:induction false} LearnedInRun(trace: seq<Reconciliation>, key: string) returns (i: nat)
    requires Linked(trace) && StatusStored(trace, key).learned != R.NOTHING_LEARNED
    ensures i < |trace| && trace[i].key == key && LearnedFrom(StatusStored(trace, key).learned, trace[i])
  {
    var n := |trace| - 1;
    if trace[n].key == key && LearnedFrom(trace[n].after.learned, trace[n]) {
      i := n;
    } else {
      i := LearnedInRun(trace[..n], key);
    }
  }

  // The persisted evidence of a reconciliation, traced to its measurement.
  lemma PersistedProvenance(trace: seq<Reconciliation>, j: nat, learned: R.Learned, e: R.Evidence) returns (i: nat)
    requires Linked(trace) && j < |trace| && learned == trace[j].before.learned
    requires learned.leadSeconds.Some? && learned.leadSeconds.value.Finite? && learned.observedAt == Some(e.observedAt)
    requires learned.identity == e.identity && e.lead == R.Nanoseconds(learned.leadSeconds.value.v)
    ensures i < j && trace[i].key == trace[j].key && MeasuredIn(trace[i], e.identity, R.Startup(e.lead, e.observedAt))
  {
    LinkedAt(trace, j);
    i := LearnedInRun(trace[..j], trace[j].key);
    var startup :| Remembers(learned, startup) && MeasuredIn(trace[i], learned.identity, startup);
    R.SecondsAndBack(startup.lead);
  }

  lemma PersistedEvidence(o: R.Observation, learned: R.Learned)
    requires R.ResolveReadinessLead(o, learned).source.PersistedLearnedSample?
    ensures var e := R.ResolveReadinessLead(o, learned);
      && learned.leadSeconds.Some? && learned.leadSeconds.value.Finite? && learned.observedAt == Some(e.observedAt)
      && learned.identity == e.identity && e.lead == R.Nanoseconds(learned.leadSeconds.value.v)
  {
  }

  // Readiness provenance: every lead time a reconcile of a run uses for its
  // planning horizon was measured in that reconcile or an earlier one of the same
  // resource, from pods of exactly the revision that is current now, as the
  // longest startup then.
  lemma LeadTimeProvenance(trace: seq<Reconciliation>, j: nat, current: int32, ready: int32) returns (i: nat)
    requires IsRun(trace) && j < |trace|
    requires P.HasReadiness(P.EvidenceOf(InputsOf(trace[j].spec, trace[j].before, trace[j].readings, current, ready)))
    ensures var e := P.EvidenceOf(InputsOf(trace[j].spec, trace[j].before, trace[j].readings, current, ready));
      && i <= j && trace[i].key == trace[j].key
      && MeasuredIn(trace[i], e.identity, R.Startup(e.lead, e.observedAt))
      && R.RevisionSeen(trace[j].readings.view).Some?
      && R.RevisionSeen(trace[j].readings.view).value.identity == e.identity
  {
    var r := trace[j];
    EvidenceSource(r, current, ready);
    var e := P.EvidenceOf(InputsOf(r.spec, r.before, r.readings, current, ready));
    if e.source.CurrentFreshSample? {
      i := j;
    } else {
      RunIsLinked(trace);
      PersistedEvidence(R.ReadinessOf(r.readings.view).value, r.before.learned);
      i := PersistedProvenance(trace, j, r.before.learned, e);
    }
  }
}
