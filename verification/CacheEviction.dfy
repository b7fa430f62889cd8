// Exactly when the bounded map of histories answers like one that never
// forgets, over whole runs, and a run on which it does not.
module CacheEviction {
  import opened Values
  import opened Samples
  import opened History
  import opened HistoryCache
  import opened CacheLaws

  // ----- Agreement over a run, in both directions -----

  // A stored entry was last updated no later than the clock of the run.
  lemma {:induction false} StampsNeverPassClock(calls: seq<Call>, now: int)
    requires ClockNondecreases(calls) && (|calls| > 0 ==> Last(calls).now <= now)
    ensures forall k :: k in RunCache(calls) ==> RunCache(calls)[k].lastUpdated <= now
  {
    if |calls| > 0 {
      var front, call := calls[..|calls| - 1], Last(calls);
      StampsNeverPassClock(front, call.now);
      RoomKeepsEntries(RunCache(front), call.key, call.now);
    }
  }

  // Call n is the first of the run that loses key.
  ghost predicate FirstLostAt(calls: seq<Call>, n: nat, key: string) {
    n < |calls| && NeverLoses(calls[..n], key) && LosesKey(RunCache(calls[..n]), calls[n], key)
  }

  lemma LostInFront(calls: seq<Call>, n: nat, key: string)
    requires |calls| > 0 && FirstLostAt(calls[..|calls| - 1], n, key)
    ensures FirstLostAt(calls, n, key)
  {
    assert calls[..|calls| - 1][..n] == calls[..n];
  }

  lemma {:induction false} FirstLoss(calls: seq<Call>, key: string) returns (n: nat)
    requires !NeverLoses(calls, key)
    ensures FirstLostAt(calls, n, key)
  {
    if NeverLoses(calls[..|calls| - 1], key) {
      n := |calls| - 1;
    } else {
      n := FirstLoss(calls[..|calls| - 1], key);
      LostInFront(calls, n, key);
    }
  }

  lemma {:induction false} NeverLosesPrefix(calls: seq<Call>, key: string, n: nat)
    requires NeverLoses(calls, key) && n <= |calls|
    ensures NeverLoses(calls[..n], key)
  {
    if n < |calls| {
      NeverLosesPrefix(calls[..|calls| - 1], key, n);
      assert calls[..|calls| - 1][..n] == calls[..n];
    } else {
      assert calls[..n] == calls;
    }
  }

  lemma ClockOfPrefix(calls: seq<Call>, n: nat)
    requires ClockNondecreases(calls) && n <= |calls|
    ensures ClockNondecreases(calls[..n])
  {
  }

  // One more call of call.key after the first n calls, by the clock of the last
  // of them or later.
  predicate MayFollow(calls: seq<Call>, n: nat, call: Call) {
    0 < n <= |calls| && call.now >= calls[n - 1].now
  }

  // Both maps answer that call alike.
  ghost predicate SameAnswer(calls: seq<Call>, n: nat, call: Call)
    requires n <= |calls|
  {
    Answer(RunCache(calls[..n]), call) == Answer(RunPlain(calls[..n]), call)
  }

  lemma RunsOneFurther(calls: seq<Call>, n: nat)
    requires n < |calls|
    ensures RunCache(calls[..n + 1])
      == Updated(RunCache(calls[..n]), calls[n].key, calls[n].demand, calls[n].capacity, calls[n].now)
    ensures RunPlain(calls[..n + 1]) == RunPlain(calls[..n])[calls[n].key := Answer(RunPlain(calls[..n]), calls[n])]
  {
    assert calls[..n + 1][..n] == calls[..n];
  }

  // A call that loses key after a run that did not: the next call for key is
  // answered differently.
  lemma LossShowsAfter(before: seq<Call>, call: Call, key: string)
    requires ClockNondecreases(before) && (|before| > 0 ==> Last(before).now <= call.now)
    requires NeverLoses(before, key) && LosesKey(RunCache(before), call, key)
    ensures var m, plain, next := RunCache(before), RunPlain(before), Call(key, NO_SAMPLE, NO_SAMPLE, call.now);
      Answer(Updated(m, call.key, call.demand, call.capacity, call.now), next)
        != Answer(plain[call.key := Answer(plain, call)], next)
  {
    AgreementHolds(before, key, call.now);
    CacheInvariant(before);
    StampsNeverPassClock(before, call.now);
    LosingAKeyShows(RunCache(before), RunPlain(before), call, key);
  }

  // At the first loss of key, the next call for it is answered differently.
  lemma LossShowsInRun(calls: seq<Call>, n: nat, key: string)
    requires ClockNondecreases(calls) && FirstLostAt(calls, n, key)
    ensures !SameAnswer(calls, n + 1, Call(key, NO_SAMPLE, NO_SAMPLE, calls[n].now))
  {
    ClockOfPrefix(calls, n);
    LossShowsAfter(calls[..n], calls[n], key);
    RunsOneFurther(calls, n);
  }

  lemma FollowsInOrder(calls: seq<Call>, n: nat, call: Call)
    requires ClockNondecreases(calls) && MayFollow(calls, n, call)
    ensures ClockNondecreases(calls[..n] + [call])
  {
    forall i, j | 0 <= i <= j < n + 1
      ensures (calls[..n] + [call])[i].now <= (calls[..n] + [call])[j].now
    {
      assert i < n ==> calls[i].now <= calls[n - 1].now;
    }
  }

  // A run loses nothing of key exactly when every call for key that could follow
  // any part of it gets the answer of the map that never expires.
  lemma AgreementIffNothingLost(calls: seq<Call>, key: string)
    requires ClockNondecreases(calls)
    ensures NeverLoses(calls, key) <==>
      forall n: nat, call :: MayFollow(calls, n, call) && call.key == key ==> SameAnswer(calls, n, call)
  {
    if NeverLoses(calls, key) {
      forall n: nat, call | MayFollow(calls, n, call) && call.key == key
        ensures SameAnswer(calls, n, call)
      {
        NeverLosesPrefix(calls, key, n);
        FollowsInOrder(calls, n, call);
        CacheAgreesWithPlainMap(calls[..n], call);
      }
    } else {
      var n := FirstLoss(calls, key);
      LossShowsInRun(calls, n, key);
      assert MayFollow(calls, n + 1, Call(key, NO_SAMPLE, NO_SAMPLE, calls[n].now));
    }
  }

  // ----- A run that loses a key -----

  const NOW: int := 1000 * SECOND

  // n + 1 letters.
  function Name(n: nat): string {
    seq(n + 1, _ => 'a')
  }

  // One observation of resource n.
  function Observed(n: nat): Call {
    Call(Name(n), Sample(NOW, Finite(1.0)), NO_SAMPLE, NOW)
  }

  // The first n resources, one observation each, all at the same time.
  function Flood(n: nat): seq<Call> {
    seq(n, i requires 0 <= i => Observed(i))
  }

  function Names(n: nat): set<string> {
    set i | 0 <= i < n :: Name(i)
  }

  lemma {:induction false} NamesCount(n: nat)
    ensures |Names(n)| == n && Name(n) !in Names(n)
  {
    assert forall i :: 0 <= i ==> |Name(i)| == i + 1;
    if n > 0 {
      NamesCount(n - 1);
      assert Names(n) == Names(n - 1) + {Name(n - 1)};
    }
  }

  // What a first observation leaves.
  function Observation(): Entry {
    Entry([Sample(NOW, Finite(1.0))], [], NOW)
  }

  lemma FirstObservation(m: Histories, n: nat)
    requires Name(n) !in m
    ensures Answer(m, Observed(n)) == Observation()
  {
    NothingInWindow(Demand, [], NOW);
    NothingInWindow(Capacity, [], NOW);
  }

  lemma FloodStep(n: nat)
    ensures Flood(n + 1)[..n] == Flood(n) && Flood(n + 1)[n] == Observed(n) && |Flood(n + 1)| == n + 1
  {
  }

  predicate Flooded(m: Histories, n: nat) {
    m.Keys == Names(n) && forall k :: k in m ==> m[k] == Observation()
  }

  lemma FloodedStep(m: Histories, n: nat)
    requires Flooded(m, n) && n < MAX_HISTORIES
    ensures Flooded(Updated(m, Name(n), Observed(n).demand, Observed(n).capacity, NOW), n + 1)
  {
    NamesCount(n);
    FirstObservation(m, n);
    assert Unexpired(m, NOW) == m && |m| == |m.Keys|;
    assert Room(m, Name(n), NOW) == m;
    assert Names(n + 1) == Names(n) + {Name(n)};
  }

  // Up to 128 resources are all kept.
  lemma {:induction false} FloodIsKept(n: nat)
    requires n <= MAX_HISTORIES
    ensures Flooded(RunCache(Flood(n)), n)
  {
    if n > 0 {
      FloodIsKept(n - 1);
      FloodedStep(RunCache(Flood(n - 1)), n - 1);
      FloodStep(n - 1);
    }
  }

  lemma ShortestIsLeast(n: nat)
    requires n > 0
    ensures StringLess(Name(0), Name(n))
  {
    assert Name(0)[1..] == "" && |Name(n)[1..]| == n;
  }

  lemma FirstIsVictim(m: Histories)
    requires Flooded(m, MAX_HISTORIES)
    ensures Evicts(m, Name(MAX_HISTORIES), NOW) && Victim(m, Name(MAX_HISTORIES), NOW) == Name(0) && Name(0) in m
  {
    NamesCount(MAX_HISTORIES);
    assert Unexpired(m, NOW) == m;
    assert |m| == |m.Keys|;
    forall l | l in m && l != Name(0)
      ensures StringLess(Name(0), l)
    {
      var i :| 0 <= i < MAX_HISTORIES && l == Name(i);
      ShortestIsLeast(i);
    }
    VictimIsLeast(m, Name(MAX_HISTORIES), NOW, Name(0));
  }

  lemma FirstIsLost(m: Histories)
    requires Flooded(m, MAX_HISTORIES)
    ensures LosesKey(m, Observed(MAX_HISTORIES), Name(0))
  {
    FirstIsVictim(m);
    assert m[Name(0)].demand[0].timestamp == NOW;
  }

  lemma FloodNeverLosesBefore(n: nat)
    requires n <= MAX_HISTORIES
    ensures NeverLoses(Flood(n), Name(0))
  {
    NamesCount(n);
    FewKeysNeverLose(Flood(n), Names(n), Name(0));
  }

  lemma FirstLossOfFlood(n: nat, calls: seq<Call>)
    requires n == MAX_HISTORIES && calls == Flood(n + 1)
    ensures FirstLostAt(calls, n, Name(0)) && ClockNondecreases(calls)
  {
    FloodStep(n);
    FloodIsKept(n);
    FirstIsLost(RunCache(Flood(n)));
    FloodNeverLosesBefore(n);
  }

  // 129 resources, observed once each at the same time: the last one throws out
  // the first while its sample is still in the window, and the next call for the
  // first, even without a new sample, is answered differently.
  lemma FloodLosesTheFirst(calls: seq<Call>, next: Call)
    requires calls == Flood(MAX_HISTORIES + 1) && next == Call(Name(0), NO_SAMPLE, NO_SAMPLE, NOW)
    ensures |calls| == 129 && ClockNondecreases(calls) && FirstLostAt(calls, MAX_HISTORIES, Name(0))
    ensures Answer(RunCache(calls), next) != Answer(RunPlain(calls), next)
  {
    var n := |calls| - 1;
    FirstLossOfFlood(n, calls);
    LossShowsInRun(calls, n, Name(0));
    assert calls[..n + 1] == calls;
  }
}
