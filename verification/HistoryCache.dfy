// The shared map of prediction histories (internal/controller/prediction.go,
// updatePredictionHistory): ten-minute expiry, at most 128 entries, oldest entry
// evicted first, histories updated in place, copies handed out.
module HistoryCache {
  import opened Values
  import opened Samples
  import opened History

  const MAX_HISTORIES: nat := 128
  const IDLE_EXPIRY: int := 10 * MINUTE

  // ----- Specification on values -----

  datatype Entry = Entry(demand: seq<Sample>, capacity: seq<Sample>, lastUpdated: int)
  type Histories = map<string, Entry>

  function Lookup(m: Histories, key: string): Entry {
    if key in m then m[key] else Entry([], [], ZERO_TIME)
  }

  function Refreshed(e: Entry, demand: Sample, capacity: Sample, now: int): Entry {
    Entry(Appended(Demand, e.demand, demand, now), Appended(Capacity, e.capacity, capacity, now), now)
  }

  lemma StampIgnored(e: Entry, f: Entry, demand: Sample, capacity: Sample, now: int)
    requires e.demand == f.demand && e.capacity == f.capacity
    ensures Refreshed(e, demand, capacity, now) == Refreshed(f, demand, capacity, now)
  {
  }

  // Lexicographic order on strings; Go compares bytes, which agrees with code
  // points.
  predicate StringLess(a: string, b: string) {
    if |b| == 0 then false
    else if |a| == 0 then true
    else if a[0] != b[0] then a[0] < b[0]
    else StringLess(a[1..], b[1..])
  }

  lemma {:induction false} StringLessTotal(a: string, b: string)
    ensures a == b || StringLess(a, b) || StringLess(b, a)
    ensures !(StringLess(a, b) && StringLess(b, a)) && !StringLess(a, a)
  {
    if |a| > 0 && |b| > 0 && a[0] == b[0] {
      StringLessTotal(a[1..], b[1..]);
      assert a == [a[0]] + a[1..] && b == [b[0]] + b[1..];
    }
    if |a| > 0 {
      StringLessTotal(a[1..], a[1..]);
    }
  }

  lemma {:induction false} StringLessTransitive(a: string, b: string, c: string)
    requires StringLess(a, b) && StringLess(b, c)
    ensures StringLess(a, c)
  {
    if |a| > 0 && a[0] == b[0] == c[0] {
      StringLessTransitive(a[1..], b[1..], c[1..]);
    }
  }

  // a and b agree up to position i, where a ends or has the smaller character.
  predicate DiffersAt(a: string, b: string, i: nat) {
    i <= |a| && i < |b| && a[..i] == b[..i] && (i == |a| || a[i] < b[i])
  }

  lemma HeadsAgree(a: string, b: string, i: nat)
    requires DiffersAt(a, b, i) && i > 0
    ensures |a| > 0 && |b| > 0 && a[0] == b[0]
  {
    assert a[..i][0] == b[..i][0];
  }

  lemma {:induction false} StringLessIff(a: string, b: string)
    ensures StringLess(a, b) <==> exists i: nat :: DiffersAt(a, b, i)
  {
    if |a| > 0 && |b| > 0 && a[0] == b[0] {
      StringLessIff(a[1..], b[1..]);
      if i: nat :| DiffersAt(a[1..], b[1..], i) {
        assert a[..i + 1] == [a[0]] + a[1..][..i] && b[..i + 1] == [b[0]] + b[1..][..i];
        assert DiffersAt(a, b, i + 1);
      }
      if i: nat :| DiffersAt(a, b, i) {
        assert i > 0 && a[1..][..i - 1] == a[..i][1..] && b[1..][..i - 1] == b[..i][1..];
        assert DiffersAt(a[1..], b[1..], i - 1);
      }
    } else {
      if StringLess(a, b) {
        assert DiffersAt(a, b, 0);
      }
      if i: nat :| DiffersAt(a, b, i) {
        if i > 0 {
          HeadsAgree(a, b, i);
        }
      }
    }
  }

  type Stamps = map<string, int>

  // Entry k comes before entry l in eviction order.
  predicate Before(stamps: Stamps, k: string, l: string)
    requires k in stamps && l in stamps
  {
    stamps[k] < stamps[l] || (stamps[k] == stamps[l] && StringLess(k, l))
  }

  lemma BeforeTransitive(stamps: Stamps, k: string, l: string, n: string)
    requires k in stamps && l in stamps && n in stamps && Before(stamps, k, l) && Before(stamps, l, n)
    ensures Before(stamps, k, n)
  {
    if stamps[k] == stamps[l] == stamps[n] {
      StringLessTransitive(k, l, n);
    }
  }

  ghost predicate LeastIn(stamps: Stamps, keys: set<string>, k: string)
    requires keys <= stamps.Keys
  {
    k in keys && forall l :: l in keys && l != k ==> Before(stamps, k, l)
  }

  // The unique least entry by (lastUpdated, key).
  ghost predicate IsOldest(stamps: Stamps, k: string) {
    LeastIn(stamps, stamps.Keys, k)
  }

  lemma OldestUnique(stamps: Stamps, k: string, l: string)
    requires IsOldest(stamps, k) && IsOldest(stamps, l)
    ensures k == l
  {
    StringLessTotal(k, l);
  }

  function StampsOf(m: Histories): Stamps {
    map k | k in m :: m[k].lastUpdated
  }

  lemma LeastWith(stamps: Stamps, keys: set<string>, k: string, x: string) returns (least: string)
    requires keys <= stamps.Keys && x in keys && LeastIn(stamps, keys - {x}, k)
    ensures LeastIn(stamps, keys, least)
  {
    StringLessTotal(k, x);
    if Before(stamps, x, k) {
      least := x;
      forall l | l in keys && l != x
        ensures Before(stamps, x, l)
      {
        if l != k {
          BeforeTransitive(stamps, x, k, l);
        }
      }
    } else {
      least := k;
    }
  }

  lemma {:induction false} OldestExists(stamps: Stamps, keys: set<string>) returns (least: string)
    requires keys <= stamps.Keys && keys != {}
    ensures LeastIn(stamps, keys, least)
    decreases |keys|
  {
    var x :| x in keys;
    if keys == {x} {
      least := x;
    } else {
      var k := OldestExists(stamps, keys - {x});
      least := LeastWith(stamps, keys, k, x);
    }
  }

  lemma SomeOldest(stamps: Stamps)
    requires stamps != map[]
    ensures exists k :: IsOldest(stamps, k)
  {
    var k := OldestExists(stamps, stamps.Keys);
    assert IsOldest(stamps, k);
  }

  ghost function Oldest(stamps: Stamps): (k: string)
    requires stamps != map[]
    ensures IsOldest(stamps, k)
  {
    SomeOldest(stamps);
    var k :| IsOldest(stamps, k);
    k
  }

  function Unexpired(m: Histories, now: int): Histories {
    map k | k in m && m[k].lastUpdated >= now - IDLE_EXPIRY :: m[k]
  }

  // An update evicts only when its key is new to a full map.
  predicate Evicts(m: Histories, key: string, now: int) {
    key !in Unexpired(m, now) && |Unexpired(m, now)| >= MAX_HISTORIES
  }

  ghost function Victim(m: Histories, key: string, now: int): string
    requires Evicts(m, key, now)
  {
    assert Unexpired(m, now) != map[];
    assert StampsOf(Unexpired(m, now)).Keys == Unexpired(m, now).Keys;
    Oldest(StampsOf(Unexpired(m, now)))
  }

  // What is left of the map when the refreshed entry is assigned.
  ghost function Room(m: Histories, key: string, now: int): Histories {
    if Evicts(m, key, now) then Unexpired(m, now) - {Victim(m, key, now)} else Unexpired(m, now)
  }

  ghost function Updated(m: Histories, key: string, demand: Sample, capacity: Sample, now: int): Histories {
    Room(m, key, now)[key := Refreshed(Lookup(m, key), demand, capacity, now)]
  }

  lemma RoomKeepsEntries(m: Histories, key: string, now: int)
    ensures forall k :: k in Room(m, key, now) ==> k in m && Room(m, key, now)[k] == m[k]
  {
  }

  // ----- The cache object -----

  datatype Record = Record(demand: Slice, capacity: Slice, lastUpdated: int)

  ghost predicate ValidRecord(h: Record) {
    ValidSlice(h.demand) && ValidSlice(h.capacity) && h.demand.data != h.capacity.data
  }

  ghost function EntryOf(h: Record): Entry
    requires ValidRecord(h)
    reads h.demand.data, h.capacity.data
  {
    Entry(View(h.demand), View(h.capacity), h.lastUpdated)
  }

  function RecordStamps(m: map<string, Record>): Stamps {
    map k | k in m :: m[k].lastUpdated
  }

  // for existingKey, existing := range m: in any order, drop what is idle.
  method DropExpired(m: map<string, Record>, now: int) returns (live: map<string, Record>)
    ensures live == map k | k in m && m[k].lastUpdated >= now - IDLE_EXPIRY :: m[k]
  {
    live := m;
    var keys := m.Keys;
    while keys != {}
      invariant keys <= m.Keys
      invariant forall k :: k in live <==> k in m && (k in keys || m[k].lastUpdated >= now - IDLE_EXPIRY)
      invariant forall k :: k in live ==> live[k] == m[k]
      decreases |keys|
    {
      var existingKey :| existingKey in keys;
      keys := keys - {existingKey};
      if m[existingKey].lastUpdated < now - IDLE_EXPIRY {
        live := live - {existingKey};
      }
    }
  }

  // The eviction scan: in any iteration order it ends at the least
  // (lastUpdated, key). The empty key marks "none yet", so keys are not empty.
  method FindOldest(m: map<string, Record>) returns (oldestKey: string)
    requires m != map[] && "" !in m
    ensures IsOldest(RecordStamps(m), oldestKey)
  {
    ghost var stamps := RecordStamps(m);
    assert stamps.Keys == m.Keys;
    oldestKey := "";
    var oldest := ZERO_TIME;
    var keys := m.Keys;
    while keys != {}
      invariant keys <= m.Keys
      invariant oldestKey == "" <==> keys == m.Keys
      invariant oldestKey != "" ==> oldestKey in m && oldestKey !in keys && oldest == m[oldestKey].lastUpdated
      invariant oldestKey != "" ==> forall l :: l in m && l !in keys && l != oldestKey ==> Before(stamps, oldestKey, l)
      decreases |keys|
    {
      var k :| k in keys;
      keys := keys - {k};
      var t := m[k].lastUpdated;
      StringLessTotal(k, oldestKey);
      if oldestKey == "" || t < oldest || (t == oldest && StringLess(k, oldestKey)) {
        ghost var previous := oldestKey;
        oldestKey, oldest := k, t;
        forall l | l in m && l !in keys && l != k
          ensures Before(stamps, k, l)
        {
          if previous != "" && l != previous {
            BeforeTransitive(stamps, k, previous, l);
          }
        }
      }
    }
  }

  ghost predicate SameStamps(m: map<string, Record>, model: Histories) {
    m.Keys == model.Keys && forall k :: k in m ==> m[k].lastUpdated == model[k].lastUpdated
  }

  lemma ModelStamps(m: map<string, Record>, model: Histories)
    requires SameStamps(m, model)
    ensures RecordStamps(m) == StampsOf(model)
  {
  }

  ghost predicate RoomFor(m: map<string, Record>, key: string, now: int, model: Histories, room: map<string, Record>) {
    && room.Keys == Room(model, key, now).Keys
    && forall k :: k in room ==> k in m && room[k] == m[k]
  }

  // Expiry, then eviction if key is new to a full map. `model` is the abstract
  // map that m stands for.
  method MakeRoom(m: map<string, Record>, key: string, now: int, ghost model: Histories)
    returns (room: map<string, Record>)
    requires "" !in m && SameStamps(m, model)
    ensures RoomFor(m, key, now, model, room)
  {
    ModelStamps(m, model);
    room := DropExpired(m, now);
    ghost var live := Unexpired(model, now);
    SameKeys(m, model, now, room);
    if key !in room && |room| >= MAX_HISTORIES {
      var victim := FindOldest(room);
      assert RecordStamps(room) == StampsOf(live);
      OldestUnique(StampsOf(live), victim, Victim(model, key, now));
      room := room - {victim};
    }
  }

  lemma SameKeys(m: map<string, Record>, model: Histories, now: int, room: map<string, Record>)
    requires RecordStamps(m) == StampsOf(model)
    requires room == map k | k in m && m[k].lastUpdated >= now - IDLE_EXPIRY :: m[k]
    ensures room.Keys == Unexpired(model, now).Keys && |room| == |Unexpired(model, now)|
    ensures RecordStamps(room) == StampsOf(Unexpired(model, now))
  {
    assert RecordStamps(m).Keys == m.Keys && StampsOf(model).Keys == model.Keys;
    forall k
      ensures k in m <==> k in model
      ensures k in m ==> m[k].lastUpdated == model[k].lastUpdated
    {
      assert k in m <==> k in RecordStamps(m);
      assert k in m ==> RecordStamps(m)[k] == m[k].lastUpdated;
    }
    assert room.Keys == Unexpired(model, now).Keys;
    assert |room| == |room.Keys| && |Unexpired(model, now)| == |Unexpired(model, now).Keys|;
  }

  // The map after an update: some of the old records, and r under key.
  ghost predicate Replaces(m: map<string, Record>, m': map<string, Record>, key: string, r: Record) {
    && key in m' && m'[key] == r
    && forall k :: k in m' && k != key ==> k in m && m'[k] == m[k]
  }

  // Who owns which backing array: the tags make all of them different.
  type Tags = map<array<Sample>, (string, Kind)>

  ghost predicate Owns(tags: Tags, k: string, h: Record) {
    && h.demand.data in tags && tags[h.demand.data] == (k, Demand)
    && h.capacity.data in tags && tags[h.capacity.data] == (k, Capacity)
  }

  ghost predicate Owned(m: map<string, Record>, tags: Tags) {
    forall k :: k in m ==> ValidRecord(m[k]) && Owns(tags, k, m[k])
  }

  // Tags after key took the arrays of r.
  ghost function Retag(tags: Tags, key: string, r: Record): Tags {
    tags[r.demand.data := (key, Demand)][r.capacity.data := (key, Capacity)]
  }

  // r uses arrays of key, or arrays nobody owned.
  ghost predicate Free(tags: Tags, key: string, r: Record) {
    && (r.demand.data in tags ==> tags[r.demand.data] == (key, Demand))
    && (r.capacity.data in tags ==> tags[r.capacity.data] == (key, Capacity))
  }

  lemma OwnedAfter(m: map<string, Record>, m': map<string, Record>, tags: Tags, key: string, r: Record)
    requires Owned(m, tags) && Replaces(m, m', key, r) && ValidRecord(r) && Free(tags, key, r)
    ensures Owned(m', Retag(tags, key, r))
  {
  }

  // The record map and the entry map after an update still agree.
  lemma SettledMaps(m: map<string, Record>, model: Histories, room: map<string, Record>, key: string, now: int,
      r: Record, entry: Entry)
    returns (m': map<string, Record>, model': Histories)
    requires "" !in m && key != "" && SameStamps(m, model) && RoomFor(m, key, now, model, room)
      && entry.lastUpdated == r.lastUpdated
    ensures m' == room[key := r] && model' == Room(model, key, now)[key := entry]
    ensures "" !in m' && SameStamps(m', model') && Replaces(m, m', key, r) && model'[key] == entry
    ensures forall k :: k in m' && k != key ==> model'[k] == model[k]
  {
    m', model' := room[key := r], Room(model, key, now)[key := entry];
    RoomKeepsEntries(model, key, now);
  }

  // history.demandRates = AppendSample(...); history.capacityRates = ...
  method RefreshRecord(h: Record, demand: Sample, capacity: Sample, now: int) returns (r: Record)
    requires ValidRecord(h)
    modifies h.demand.data, h.capacity.data
    ensures ValidRecord(r) && EntryOf(r) == Refreshed(old(EntryOf(h)), demand, capacity, now)
    ensures r.demand.data == h.demand.data || fresh(r.demand.data)
    ensures r.capacity.data == h.capacity.data || fresh(r.capacity.data)
  {
    var d := AppendSample(h.demand, demand, now);
    var c := AppendCapacitySample(h.capacity, capacity, now);
    r := Record(d, c, now);
  }

  twostate lemma Untouched(h: Record)
    requires ValidRecord(h) && unchanged(h.demand.data) && unchanged(h.capacity.data)
    ensures EntryOf(h) == old(EntryOf(h))
  {
  }

  class PredictionCache {
    var histories: map<string, Record>
    ghost var tags: Tags
    ghost var model: Histories  // what the map stands for

    // Consistent, except that the arrays of key may be half updated.
    ghost predicate ValidExcept(key: string)
      reads this, tags.Keys
    {
      && "" !in histories
      && Owned(histories, tags)
      && SameStamps(histories, model)
      && (forall k :: k in histories && k != key ==> EntryOf(histories[k]) == model[k])
    }

    ghost predicate Valid()
      reads this, tags.Keys
    {
      ValidExcept("")
    }

    constructor ()
      ensures Valid() && model == map[]
    {
      histories, tags, model := map[], map[], map[];
    }

    // Fetch the record of key, or two empty slices.
    method Fetch(key: string) returns (h: Record)
      requires Valid() && key != ""
      ensures ValidRecord(h) && Free(tags, key, h)
      ensures EntryOf(h).demand == Lookup(model, key).demand && EntryOf(h).capacity == Lookup(model, key).capacity
      ensures key in histories ==> h == histories[key]
      ensures key !in histories ==> fresh(h.demand.data) && fresh(h.capacity.data)
    {
      if key in histories {
        h := histories[key];
      } else {
        var d := new Sample[0];
        var c := new Sample[0];
        h := Record(Slice(d, 0, 0), Slice(c, 0, 0), ZERO_TIME);
      }
    }

    // The refreshed record of key; no other entry is touched.
    method RefreshKey(key: string, demand: Sample, capacity: Sample, now: int) returns (r: Record)
      requires Valid() && key != ""
      modifies if key in histories then {histories[key].demand.data, histories[key].capacity.data} else {}
      ensures ValidRecord(r) && EntryOf(r) == Refreshed(Lookup(model, key), demand, capacity, now)
      ensures ValidExcept(key) && Free(tags, key, r)
      ensures (r.demand.data in tags || fresh(r.demand.data)) && (r.capacity.data in tags || fresh(r.capacity.data))
    {
      var h := Fetch(key);
      ghost var entry := Refreshed(EntryOf(h), demand, capacity, now);
      assert entry == Refreshed(Lookup(model, key), demand, capacity, now) by {
        StampIgnored(EntryOf(h), Lookup(model, key), demand, capacity, now);
      }
      r := RefreshRecord(h, demand, capacity, now);
      forall k | k in histories && k != key
        ensures EntryOf(histories[k]) == model[k]
      {
        assert Owns(tags, k, histories[k]);
        Untouched(histories[k]);
      }
    }

    // The assignment to the map that was made room in.
    method Store(key: string, r: Record, room: map<string, Record>, ghost model': Histories)
      requires ValidExcept(key) && key != "" && ValidRecord(r) && Free(tags, key, r)
      requires "" !in room && Replaces(histories, room[key := r], key, r) && SameStamps(room[key := r], model')
      requires model'[key] == EntryOf(r) && forall k :: k in model' && k != key ==> k in model && model'[k] == model[k]
      modifies this
      ensures Valid() && histories == room[key := r] && tags == Retag(old(tags), key, r) && model == model'
    {
      OwnedAfter(histories, room[key := r], tags, key, r);
      histories, tags, model := room[key := r], Retag(tags, key, r), model';
    }

    // Refresh the record of key, make room, store.
    method UpdateRecord(key: string, demand: Sample, capacity: Sample, now: int) returns (r: Record)
      requires Valid() && key != ""
      modifies this, if key in histories then {histories[key].demand.data, histories[key].capacity.data} else {}
      ensures Valid() && Replaces(old(histories), histories, key, r) && ValidRecord(r)
      ensures fresh(tags.Keys - old(tags.Keys))
      ensures model == Updated(old(model), key, demand, capacity, now)
      ensures EntryOf(r) == Refreshed(Lookup(old(model), key), demand, capacity, now)
    {
      ghost var entry := Refreshed(Lookup(model, key), demand, capacity, now);
      r := RefreshKey(key, demand, capacity, now);
      var room := MakeRoom(histories, key, now, model);
      ghost var histories', model' := SettledMaps(histories, model, room, key, now, r, entry);
      Store(key, r, room, model');
    }

    // updatePredictionHistory, under the mutex. Every array the cache takes over
    // is new, and the returned slices are copies in arrays it does not own: an
    // update only writes arrays that the cache owned before it, so slices handed
    // out stay as they are for ever.
    method Update(key: string, demand: Sample, capacity: Sample, now: int)
      returns (demandCopy: Slice, capacityCopy: Slice)
      requires Valid() && key != ""
      modifies this, if key in histories then {histories[key].demand.data, histories[key].capacity.data} else {}
      ensures Valid() && key in histories && Replaces(old(histories), histories, key, histories[key])
      ensures fresh(tags.Keys - old(tags.Keys))
      ensures model == Updated(old(model), key, demand, capacity, now)
      ensures ValidSlice(demandCopy) && ValidSlice(capacityCopy) && fresh(demandCopy.data) && fresh(capacityCopy.data)
      ensures demandCopy.data !in tags && capacityCopy.data !in tags
      ensures var entry := Refreshed(Lookup(old(model), key), demand, capacity, now);
        View(demandCopy) == entry.demand && View(capacityCopy) == entry.capacity
    {
      var r := UpdateRecord(key, demand, capacity, now);
      demandCopy := Copy(r.demand);
      capacityCopy := Copy(r.capacity);
    }
  }
}
