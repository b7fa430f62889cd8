// The history cache inside a run of the controller: what the laws of the cache
// say about the decisions of every run.
module ControllerCache {
  import opened Values
  import opened HistoryCache
  import opened Policy
  import opened Controller
  import opened ControllerRuns
  import L = CacheLaws
  import P = Prediction

  // The call a reconcile makes on the cache, if it gets as far as predicting.
  ghost function CallOf(r: Reconciliation): Option<L.Call> {
    if !Decides(r.spec, r.readings) || !r.spec.prediction.enabled then None
    else Some(PredictionCall(r.key, InputsIn(r)))
  }

  ghost function InputsIn(r: Reconciliation): P.Inputs
    requires Decides(r.spec, r.readings)
  {
    InputsOf(r.spec, r.before, r.readings, r.readings.targetScale.value, r.readings.targetReady.value)
  }

  function PredictionCall(key: string, i: P.Inputs): L.Call {
    L.Call(key, P.DemandSample(i.snapshot), P.CapacitySample(i), i.limits.now)
  }

  ghost function CallsOf(trace: seq<Reconciliation>): seq<L.Call> {
    if |trace| == 0 then []
    else
      var calls, call := CallsOf(trace[..|trace| - 1]), CallOf(Last(trace));
      if call.Some? then calls + [call.value] else calls
  }

  ghost predicate CalledBy(m: Histories, m': Histories, call: L.Call) {
    m' == Updated(m, call.key, call.demand, call.capacity, call.now)
  }

  lemma ReconcileCallsCache(r: Reconciliation)
    requires Reconciled(r)
    ensures CallOf(r).None? ==> r.cacheAfter == r.cache
    ensures CallOf(r).Some? ==> CalledBy(r.cache, r.cacheAfter, CallOf(r).value)
  {
  }

  lemma CallIsOf(r: Reconciliation)
    ensures CallOf(r).Some? ==> CallOf(r).value.key == r.key && CallOf(r).value.now == r.readings.now
  {
  }

  lemma OneMoreCall(calls: seq<L.Call>, call: L.Call)
    ensures CalledBy(L.RunCache(calls), L.RunCache(calls + [call]), call)
  {
    assert (calls + [call])[..|calls|] == calls;
  }

  // The cache of a controller run is the cache of its calls.
  lemma {:induction false} CacheIsThatOfCalls(trace: seq<Reconciliation>)
    requires IsRun(trace)
    ensures CacheHeld(trace) == L.RunCache(CallsOf(trace))
  {
    if |trace| > 0 {
      var front, r := trace[..|trace| - 1], Last(trace);
      CacheIsThatOfCalls(front);
      ReconcileCallsCache(r);
      if CallOf(r).Some? {
        OneMoreCall(CallsOf(front), CallOf(r).value);
      }
    }
  }

  // In every run of the controller the cache holds at most 128 well-formed
  // histories.
  lemma RunCacheIsBounded(trace: seq<Reconciliation>)
    requires IsRun(trace)
    ensures |CacheHeld(trace)| <= MAX_HISTORIES && L.StoredEntries(CacheHeld(trace))
  {
    CacheIsThatOfCalls(trace);
    L.CacheInvariant(CallsOf(trace));
  }

  lemma FollowingCall(calls: seq<L.Call>, call: L.Call)
    requires L.ClockNondecreases(calls) && forall c :: c in calls ==> c.now <= call.now
    ensures L.ClockNondecreases(calls + [call])
  {
    assert forall i :: 0 <= i < |calls| ==> calls[i] in calls;
  }

  lemma {:induction false} CallsFollowClock(trace: seq<Reconciliation>, now: int)
    requires ClockNondecreases(trace) && (|trace| > 0 ==> Last(trace).readings.now <= now)
    ensures L.ClockNondecreases(CallsOf(trace)) && forall c :: c in CallsOf(trace) ==> c.now <= now
  {
    if |trace| > 0 {
      var front, r := trace[..|trace| - 1], Last(trace);
      CallsFollowClock(front, r.readings.now);
      CallIsOf(r);
      if CallOf(r).Some? {
        FollowingCall(CallsOf(front), CallOf(r).value);
      }
    }
  }

  lemma {:induction false} CallsOfKeys(trace: seq<Reconciliation>, keys: set<string>)
    requires forall r :: r in trace ==> r.key in keys
    ensures forall i :: 0 <= i < |CallsOf(trace)| ==> CallsOf(trace)[i].key in keys
  {
    if |trace| > 0 {
      CallsOfKeys(trace[..|trace| - 1], keys);
      CallIsOf(Last(trace));
    }
  }

  // Maps that answer alike lead to the same decision.
  lemma SameAnswerSameDecision(m: Histories, plain: Histories, r: Reconciliation)
    requires CallOf(r).Some? && L.Answer(m, CallOf(r).value) == L.Answer(plain, CallOf(r).value)
    ensures DecisionOf(m, r.key, r.spec, r.before, r.readings) == DecisionOf(plain, r.key, r.spec, r.before, r.readings)
  {
    var i := InputsIn(r);
    assert P.HistoriesAfter(m, r.key, i) == L.Answer(m, CallOf(r).value);
    assert P.HistoriesAfter(plain, r.key, i) == L.Answer(plain, CallOf(r).value);
  }

  lemma NextCallAgrees(trace: seq<Reconciliation>, call: L.Call)
    requires IsRun(trace) && ClockNondecreases(trace) && (|trace| > 0 ==> Last(trace).readings.now <= call.now)
    requires L.NeverLoses(CallsOf(trace), call.key)
    ensures L.Answer(CacheHeld(trace), call) == L.Answer(L.RunPlain(CallsOf(trace)), call)
  {
    CacheIsThatOfCalls(trace);
    CallsFollowClock(trace, call.now);
    FollowingCall(CallsOf(trace), call);
    L.CacheAgreesWithPlainMap(CallsOf(trace), call);
  }

  // In every run each decision is the one that a map without expiry and eviction
  // would lead to, as long as no eviction lost samples of that resource.
  lemma DecisionForgetsNothing(trace: seq<Reconciliation>, r: Reconciliation, plain: Histories)
    requires IsRun(trace) && r.cache == CacheHeld(trace) && Decides(r.spec, r.readings)
    requires ClockNondecreases(trace) && (|trace| > 0 ==> Last(trace).readings.now <= r.readings.now)
    requires L.NeverLoses(CallsOf(trace), r.key) && plain == L.RunPlain(CallsOf(trace))
    ensures DecisionOf(r.cache, r.key, r.spec, r.before, r.readings)
      == DecisionOf(plain, r.key, r.spec, r.before, r.readings)
  {
    if r.spec.prediction.enabled {
      CallIsOf(r);
      NextCallAgrees(trace, CallOf(r).value);
      SameAnswerSameDecision(r.cache, plain, r);
    }
  }

  // With at most 128 resources that is every decision of every run.
  lemma FewResourcesForgetNothing(trace: seq<Reconciliation>, r: Reconciliation, plain: Histories, keys: set<string>)
    requires IsRun(trace) && r.cache == CacheHeld(trace) && Decides(r.spec, r.readings)
    requires ClockNondecreases(trace) && (|trace| > 0 ==> Last(trace).readings.now <= r.readings.now)
    requires |keys| <= MAX_HISTORIES && (forall q :: q in trace ==> q.key in keys)
      && plain == L.RunPlain(CallsOf(trace))
    ensures DecisionOf(r.cache, r.key, r.spec, r.before, r.readings)
      == DecisionOf(plain, r.key, r.spec, r.before, r.readings)
  {
    CallsOfKeys(trace, keys);
    L.FewKeysNeverLose(CallsOf(trace), keys, r.key);
    DecisionForgetsNothing(trace, r, plain);
  }
}
