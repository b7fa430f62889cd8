// What the expiring, bounded map of histories promises: it stays small, its
// victim does not depend on iteration order, and it answers like a map that
// never forgets, exactly until a full map evicts an entry that still matters.
module CacheLaws {
  import opened Values
  import opened Samples
  import opened History
  import opened HistoryCache

  datatype Call = Call(key: string, demand: Sample, capacity: Sample, now: int)

  predicate ClockNondecreases(calls: seq<Call>) {
    forall i, j :: 0 <= i <= j < |calls| ==> calls[i].now <= calls[j].now
  }

  // What a call answers when the map before it is m.
  function Answer(m: Histories, call: Call): Entry {
    Refreshed(Lookup(m, call.key), call.demand, call.capacity, call.now)
  }

  ghost function RunCache(calls: seq<Call>): Histories {
    if |calls| == 0 then map[]
    else
      var call := Last(calls);
      Updated(RunCache(calls[..|calls| - 1]), call.key, call.demand, call.capacity, call.now)
  }

  // The reference: a map that never expires and never evicts.
  function RunPlain(calls: seq<Call>): Histories {
    if |calls| == 0 then map[]
    else
      var plain := RunPlain(calls[..|calls| - 1]);
      plain[Last(calls).key := Answer(plain, Last(calls))]
  }

  // ----- What every run keeps -----

  predicate StoredEntry(e: Entry) {
    Stored(Demand, e.demand, e.lastUpdated) && Stored(Capacity, e.capacity, e.lastUpdated)
  }

  predicate StoredEntries(m: Histories) {
    forall k :: k in m ==> StoredEntry(m[k])
  }

  lemma AnswerStored(m: Histories, call: Call)
    requires StoredEntries(m)
    ensures StoredEntry(Answer(m, call))
  {
    var e := Lookup(m, call.key);
    AppendKeepsHistory(Demand, e.demand, call.demand, call.now);
    AppendKeepsHistory(Capacity, e.capacity, call.capacity, call.now);
  }

  lemma RoomSize(m: Histories, key: string, now: int)
    requires |m| <= MAX_HISTORIES
    ensures |Room(m, key, now).Keys| < MAX_HISTORIES
      || (key in Room(m, key, now) && |Room(m, key, now).Keys| <= MAX_HISTORIES)
  {
    var live := Unexpired(m, now);
    SubsetSize(live.Keys, m.Keys);
    assert |live| == |live.Keys| && |m| == |m.Keys|;
    if Evicts(m, key, now) {
      VictimIsLeast(m, key, now, Victim(m, key, now));
      assert Room(m, key, now).Keys == live.Keys - {Victim(m, key, now)};
    }
  }

  lemma UpdatedBounded(m: Histories, call: Call)
    requires |m| <= MAX_HISTORIES
    ensures |Updated(m, call.key, call.demand, call.capacity, call.now)| <= MAX_HISTORIES
  {
    RoomSize(m, call.key, call.now);
    AddKey(Room(m, call.key, call.now), call.key, Refreshed(Lookup(m, call.key), call.demand, call.capacity, call.now));
  }

  lemma AddKey<K, V>(m: map<K, V>, k: K, v: V)
    ensures |m[k := v]| == |m.Keys + {k}|
  {
    assert m[k := v].Keys == m.Keys + {k};
    assert |m[k := v]| == |m[k := v].Keys|;
  }

  lemma {:induction false} SubsetSize<T>(s: set<T>, t: set<T>)
    requires s <= t
    ensures |s| <= |t|
    decreases s
  {
    if s != {} {
      var x :| x in s;
      SubsetSize(s - {x}, t - {x});
    }
  }

  // For any clock: at most 128 entries, the key just updated is among them, and
  // every entry is a well-formed history of its last update.
  lemma {:induction false} CacheInvariant(calls: seq<Call>)
    ensures |RunCache(calls)| <= MAX_HISTORIES
    ensures StoredEntries(RunCache(calls))
    ensures |calls| > 0 ==> Last(calls).key in RunCache(calls)
  {
    if |calls| > 0 {
      var m, call := RunCache(calls[..|calls| - 1]), Last(calls);
      CacheInvariant(calls[..|calls| - 1]);
      UpdatedBounded(m, call);
      AnswerStored(m, call);
      RoomKeepsEntries(m, call.key, call.now);
    }
  }

  // The victim is the only entry that comes before all others, so the order in
  // which the map is walked cannot matter.
  lemma VictimIsLeast(m: Histories, key: string, now: int, k: string)
    requires Evicts(m, key, now)
    ensures k == Victim(m, key, now) <==>
      k in Unexpired(m, now) && forall l :: l in Unexpired(m, now) && l != k ==>
        m[k].lastUpdated < m[l].lastUpdated || (m[k].lastUpdated == m[l].lastUpdated && StringLess(k, l))
  {
    var stamps, v := StampsOf(Unexpired(m, now)), Victim(m, key, now);
    assert IsOldest(stamps, v);
    assert forall l :: l in stamps <==> l in Unexpired(m, now);
    if k in Unexpired(m, now) && k != v {
      assert Before(stamps, v, k);
      StringLessTotal(k, v);
    }
  }

  // The entries updated within the last ten minutes.
  function Live(m: Histories, now: int): set<string> {
    set l | l in m && m[l].lastUpdated >= now - 600 * SECOND
  }

  // A new key comes to 128 live entries, and k is the first of them to go.
  predicate Squeezed(m: Histories, key: string, now: int, k: string) {
    && key !in Live(m, now) && |Live(m, now)| >= 128 && k in Live(m, now)
    && forall l :: l in Live(m, now) && l != k ==>
      m[k].lastUpdated < m[l].lastUpdated || (m[k].lastUpdated == m[l].lastUpdated && StringLess(k, l))
  }

  // Exactly what an update leaves in the map: the refreshed entry, and the other
  // live ones as they were, but for one when a new key comes to a full map.
  lemma UpdatedIff(m: Histories, key: string, demand: Sample, capacity: Sample, now: int, k: string)
    requires k != key
    ensures var m' := Updated(m, key, demand, capacity, now); var before := Lookup(m, key);
      && (k in m' <==> k in Live(m, now) && !Squeezed(m, key, now, k))
      && (k in m' ==> m'[k] == m[k])
      && key in m' && m'[key] == Entry(
        Appended(Demand, before.demand, demand, now), Appended(Capacity, before.capacity, capacity, now), now)
  {
    RoomKeepsEntries(m, key, now);
    assert Unexpired(m, now).Keys == Live(m, now);
    assert |Unexpired(m, now)| == |Unexpired(m, now).Keys|;
    if Evicts(m, key, now) {
      VictimIsLeast(m, key, now, k);
      assert Squeezed(m, key, now, k) <==> k == Victim(m, key, now);
    }
  }

  // ----- Agreement with the map that never forgets -----

  predicate AllBefore(h: seq<Sample>, instant: int) {
    forall s :: s in h ==> s.timestamp < instant
  }

  // Nothing of e would survive pruning from now on.
  predicate Dead(e: Entry, now: int) {
    AllBefore(e.demand, now - HISTORY_WINDOW) && AllBefore(e.capacity, now - HISTORY_WINDOW)
  }

  lemma DeadAnswersEmpty(e: Entry, earlier: int, call: Call)
    requires Dead(e, earlier) && earlier <= call.now
    ensures Refreshed(e, call.demand, call.capacity, call.now)
      == Refreshed(Entry([], [], ZERO_TIME), call.demand, call.capacity, call.now)
  {
    NothingInWindow(Demand, e.demand, call.now);
    NothingInWindow(Capacity, e.capacity, call.now);
    NothingInWindow(Demand, [], call.now);
    NothingInWindow(Capacity, [], call.now);
  }

  // Both maps will answer the same for key.
  predicate Agrees(m: Histories, plain: Histories, key: string, now: int) {
    if key in m then key in plain && m[key] == plain[key] else Dead(Lookup(plain, key), now)
  }

  // The call throws away an entry of key that still holds in-window samples.
  ghost predicate LosesKey(m: Histories, call: Call, key: string) {
    Evicts(m, call.key, call.now) && Victim(m, call.key, call.now) == key && key in m && !Dead(m[key], call.now)
  }

  // An entry idle for ten minutes holds nothing that pruning would keep.
  lemma IdleIsDead(e: Entry, now: int)
    requires StoredEntry(e) && e.lastUpdated < now - IDLE_EXPIRY
    ensures Dead(e, now)
  {
  }

  lemma AgreementStep(m: Histories, plain: Histories, call: Call, key: string, earlier: int)
    requires Agrees(m, plain, key, earlier) && earlier <= call.now && StoredEntries(m)
    requires !LosesKey(m, call, key)
    ensures call.key == key ==> Answer(m, call) == Answer(plain, call)
    ensures Agrees(Updated(m, call.key, call.demand, call.capacity, call.now), plain[call.key := Answer(plain, call)],
      key, call.now)
  {
    if call.key == key {
      if key !in m {
        DeadAnswersEmpty(Lookup(plain, key), earlier, call);
      }
    } else {
      RoomKeepsEntries(m, call.key, call.now);
      if key in m && m[key].lastUpdated < call.now - IDLE_EXPIRY {
        IdleIsDead(m[key], call.now);
      }
    }
  }

  // No call of the run loses key.
  ghost predicate NeverLoses(calls: seq<Call>, key: string) {
    |calls| == 0 ||
      var front := calls[..|calls| - 1];
      NeverLoses(front, key) && !LosesKey(RunCache(front), Last(calls), key)
  }

  lemma {:induction false} AgreementHolds(calls: seq<Call>, key: string, now: int)
    requires ClockNondecreases(calls) && NeverLoses(calls, key)
    requires |calls| > 0 ==> Last(calls).now <= now
    ensures Agrees(RunCache(calls), RunPlain(calls), key, now)
  {
    if |calls| > 0 {
      var front, call := calls[..|calls| - 1], Last(calls);
      AgreementHolds(front, key, call.now);
      CacheInvariant(front);
      AgreementStep(RunCache(front), RunPlain(front), call, key, call.now);
    }
  }

  // While no eviction has thrown away in-window samples of its key, a call
  // returns exactly what a map that never expires entries returns.
  lemma CacheAgreesWithPlainMap(calls: seq<Call>, call: Call)
    requires ClockNondecreases(calls + [call]) && NeverLoses(calls, call.key)
    ensures Answer(RunCache(calls), call) == Answer(RunPlain(calls), call)
  {
    assert forall i :: 0 <= i < |calls| ==> (calls + [call])[i] == calls[i];
    assert (calls + [call])[|calls|] == call;
    AgreementHolds(calls, call.key, call.now);
    if call.key !in RunCache(calls) {
      DeadAnswersEmpty(Lookup(RunPlain(calls), call.key), call.now, call);
    }
  }

  // A call without new samples answers what pruning leaves.
  lemma SilentAnswer(e: Entry, now: int)
    ensures Refreshed(e, NO_SAMPLE, NO_SAMPLE, now)
      == Entry(Pruned(Demand, e.demand, now), Pruned(Capacity, e.capacity, now), now)
  {
  }

  lemma SurvivorKept(kind: Kind, h: seq<Sample>, earlier: int, now: int)
    requires Stored(kind, h, earlier) && earlier <= now && !AllBefore(h, now - HISTORY_WINDOW)
    ensures Pruned(kind, h, now) != []
  {
    var s :| s in h && s.timestamp >= now - HISTORY_WINDOW;
    assert InWindow(kind, earlier)(s);
    FilterMember(h, InWindow(kind, now), s);
  }

  // The other way round: had the evicted entry agreed with the plain map, the next
  // call for it, even one without a new sample, gets a different answer.
  lemma LosingAKeyShows(m: Histories, plain: Histories, call: Call, key: string)
    requires StoredEntries(m) && Agrees(m, plain, key, call.now) && LosesKey(m, call, key)
    requires m[key].lastUpdated <= call.now
    ensures var next := Call(key, NO_SAMPLE, NO_SAMPLE, call.now);
      Answer(Updated(m, call.key, call.demand, call.capacity, call.now), next)
        != Answer(plain[call.key := Answer(plain, call)], next)
  {
    var now := call.now;
    var m' := Updated(m, call.key, call.demand, call.capacity, now);
    VictimIsLeast(m, call.key, now, key);
    assert key !in m';
    SilentAnswer(Lookup(m', key), now);
    SilentAnswer(m[key], now);
    if !AllBefore(m[key].demand, now - HISTORY_WINDOW) {
      SurvivorKept(Demand, m[key].demand, m[key].lastUpdated, now);
    } else {
      SurvivorKept(Capacity, m[key].capacity, m[key].lastUpdated, now);
    }
  }

  // Losing a key takes 128 live entries, the lost one among them, that were all
  // updated in the last five and a half minutes, and a caller with yet another key.
  lemma LossNeedsPressure(m: Histories, call: Call, key: string)
    requires StoredEntries(m) && LosesKey(m, call, key)
    ensures |Unexpired(m, call.now)| >= MAX_HISTORIES && key in Unexpired(m, call.now)
      && call.key !in Unexpired(m, call.now)
    ensures forall k :: k in Unexpired(m, call.now) ==> m[k].lastUpdated >= call.now - HISTORY_WINDOW - FUTURE_TOLERANCE
  {
    VictimIsLeast(m, call.key, call.now, key);
    assert m[key].lastUpdated >= call.now - HISTORY_WINDOW - FUTURE_TOLERANCE by {
      if m[key].lastUpdated < call.now - HISTORY_WINDOW - FUTURE_TOLERANCE {
        assert Dead(m[key], call.now);
      }
    }
  }

  lemma {:induction false} OnlyCalledKeys(calls: seq<Call>, keys: set<string>)
    requires forall i :: 0 <= i < |calls| ==> calls[i].key in keys
    ensures RunCache(calls).Keys <= keys
  {
    if |calls| > 0 {
      var m, call := RunCache(calls[..|calls| - 1]), Last(calls);
      OnlyCalledKeys(calls[..|calls| - 1], keys);
      RoomKeepsEntries(m, call.key, call.now);
    }
  }

  lemma FewKeysNeverEvict(calls: seq<Call>, call: Call, keys: set<string>)
    requires forall i :: 0 <= i < |calls| ==> calls[i].key in keys
    requires call.key in keys && |keys| <= MAX_HISTORIES
    ensures !Evicts(RunCache(calls), call.key, call.now)
  {
    OnlyCalledKeys(calls, keys);
    var live := Unexpired(RunCache(calls), call.now);
    if call.key !in live {
      SubsetSize(live.Keys, keys - {call.key});
      assert |live| == |live.Keys|;
    }
  }

  lemma {:induction false} FewKeysNeverLose(calls: seq<Call>, keys: set<string>, key: string)
    requires |keys| <= MAX_HISTORIES && forall i :: 0 <= i < |calls| ==> calls[i].key in keys
    ensures NeverLoses(calls, key)
  {
    if |calls| > 0 {
      FewKeysNeverLose(calls[..|calls| - 1], keys, key);
      FewKeysNeverEvict(calls[..|calls| - 1], Last(calls), keys);
    }
  }

  // With at most 128 resources the agreement is unconditional.
  lemma FewKeysAgree(calls: seq<Call>, call: Call, keys: set<string>)
    requires ClockNondecreases(calls + [call]) && |keys| <= MAX_HISTORIES
    requires forall i :: 0 <= i < |calls| ==> calls[i].key in keys
    ensures Answer(RunCache(calls), call) == Answer(RunPlain(calls), call)
  {
    FewKeysNeverLose(calls, keys, call.key);
    CacheAgreesWithPlainMap(calls, call);
  }

  // ----- The object over a whole run -----

  datatype Handout = Handout(demand: Slice, capacity: Slice)

  ghost predicate Detached(h: Handout, tags: Tags) {
    h.demand.data !in tags && h.capacity.data !in tags
  }

  ghost predicate Shows(h: Handout, e: Entry)
    reads h.demand.data, h.capacity.data
  {
    ValidSlice(h.demand) && ValidSlice(h.capacity) && View(h.demand) == e.demand && View(h.capacity) == e.capacity
  }

  ghost predicate AllDetached(handouts: seq<Handout>, tags: Tags) {
    forall j :: 0 <= j < |handouts| ==> Detached(handouts[j], tags)
  }

  ghost predicate AllShow(handouts: seq<Handout>, answers: seq<Entry>)
    reads set h | h in handouts :: h.demand.data, set h | h in handouts :: h.capacity.data
  {
    |handouts| == |answers| && forall j :: 0 <= j < |handouts| ==> Shows(handouts[j], answers[j])
  }

  twostate lemma AllStillShow(handouts: seq<Handout>, new answers: seq<Entry>)
    requires forall j :: 0 <= j < |handouts| ==>
      unchanged(handouts[j].demand.data) && unchanged(handouts[j].capacity.data)
    ensures old(AllShow(handouts, answers)) ==> AllShow(handouts, answers)
  {
  }

  // One call: the new slices show the answer; whatever was detached before
  // stays detached.
  method ServeOne(cache: PredictionCache, call: Call, ghost earlier: seq<Handout>) returns (h: Handout)
    requires cache.Valid() && call.key != "" && AllDetached(earlier, cache.tags)
    modifies cache, cache.tags.Keys
    ensures cache.Valid() && fresh(cache.tags.Keys - old(cache.tags.Keys))
    ensures cache.model == Updated(old(cache.model), call.key, call.demand, call.capacity, call.now)
    ensures AllDetached(earlier + [h], cache.tags) && Shows(h, Answer(old(cache.model), call))
  {
    ghost var tags := cache.tags;
    assert call.key in cache.histories ==> Owns(tags, call.key, cache.histories[call.key]);
    var demand, capacity := cache.Update(call.key, call.demand, call.capacity, call.now);
    h := Handout(demand, capacity);
    forall j | 0 <= j < |earlier|
      ensures Detached(earlier[j], cache.tags)
    {
      assert Detached(earlier[j], tags);
      assert earlier[j].demand.data !in cache.tags.Keys - tags.Keys
        && earlier[j].capacity.data !in cache.tags.Keys - tags.Keys;
    }
  }

  // The same, and no slice handed out earlier is written.
  method ServeNext(cache: PredictionCache, call: Call, ghost earlier: seq<Handout>, ghost answers: seq<Entry>)
    returns (h: Handout)
    requires cache.Valid() && call.key != "" && AllDetached(earlier, cache.tags) && AllShow(earlier, answers)
    modifies cache, cache.tags.Keys
    ensures cache.Valid() && fresh(cache.tags.Keys - old(cache.tags.Keys))
    ensures cache.model == Updated(old(cache.model), call.key, call.demand, call.capacity, call.now)
    ensures AllDetached(earlier + [h], cache.tags)
    ensures AllShow(earlier + [h], answers + [Answer(old(cache.model), call)])
  {
    ghost var tags := cache.tags;
    h := ServeOne(cache, call, earlier);
    assert forall j :: 0 <= j < |earlier| ==> Detached(earlier[j], tags);
    AllStillShow(earlier, answers);
  }

  // What a run answers, call by call.
  ghost function Answers(calls: seq<Call>): seq<Entry> {
    if |calls| == 0 then []
    else
      var front := calls[..|calls| - 1];
      Answers(front) + [Answer(RunCache(front), Last(calls))]
  }

  // The controller's calls against one cache object: at the end every slice it
  // was ever given still shows what the cache answered then.
  method Serve(cache: PredictionCache, calls: seq<Call>) returns (handouts: seq<Handout>)
    requires cache.Valid() && cache.model == map[]
    requires forall i :: 0 <= i < |calls| ==> calls[i].key != ""
    modifies cache, cache.tags.Keys
    ensures cache.Valid() && fresh(cache.tags.Keys - old(cache.tags.Keys))
    ensures cache.model == RunCache(calls)
    ensures AllDetached(handouts, cache.tags) && AllShow(handouts, Answers(calls))
  {
    if |calls| == 0 {
      return [];
    }
    var front := calls[..|calls| - 1];
    handouts := Serve(cache, front);
    var h := ServeNext(cache, Last(calls), handouts, Answers(front));
    handouts := handouts + [h];
  }
}
