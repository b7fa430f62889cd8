// The inventory service: its telemetry object and the reading of its rows
// (cmd/inventory-service/main.go).
module Inventory {
  import opened Values
  import opened Counting

  const MILLISECOND: int := 1_000_000

  // Histogram boundaries in nanoseconds, shared by both histograms.
  const BOUNDARIES: seq<int> := [
    5 * MILLISECOND, 10 * MILLISECOND, 25 * MILLISECOND, 50 * MILLISECOND, 100 * MILLISECOND,
    250 * MILLISECOND, 500 * MILLISECOND, 1000 * MILLISECOND, 2000 * MILLISECOND, 5000 * MILLISECOND]

  // requests and durations of one histogram.
  datatype Tally = Tally(requests: nat, errors: nat, durations: nat, durationTime: int, buckets: seq<nat>)

  datatype Counters = Counters(active: int, activeWork: int, dbActive: int, http: Tally, db: Tally)

  predicate Shaped(c: Counters) {
    |c.http.buckets| == |BOUNDARIES| && |c.db.buckets| == |BOUNDARIES|
  }

  function Tallied(t: Tally, duration: int, failed: bool): Tally
    requires |t.buckets| == |BOUNDARIES|
  {
    Tally(t.requests + 1, t.errors + (if failed then 1 else 0), t.durations + 1, t.durationTime + duration,
          Bumped(t.buckets, BOUNDARIES, duration))
  }

  function NoTally(): Tally {
    Tally(0, 0, 0, 0, seq(|BOUNDARIES|, _ => 0))
  }

  function NoCounts(): Counters {
    Counters(0, 0, 0, NoTally(), NoTally())
  }

  // Each method body runs under the mutex, so it is one atomic step.
  class Telemetry {
    var requests: nat
    var errors: nat
    var durations: nat
    var durationTime: int
    const buckets: array<nat>
    var active: int
    var activeWork: int
    var dbRequests: nat
    var dbErrors: nat
    var dbDurations: nat
    var dbDurationTime: int
    var dbActive: int
    const dbBuckets: array<nat>

    ghost predicate Valid() {
      buckets.Length == |BOUNDARIES| && dbBuckets.Length == |BOUNDARIES| && buckets != dbBuckets
    }

    ghost function View(): Counters
      reads this, buckets, dbBuckets
    {
      Counters(active, activeWork, dbActive,
               Tally(requests, errors, durations, durationTime, buckets[..]),
               Tally(dbRequests, dbErrors, dbDurations, dbDurationTime, dbBuckets[..]))
    }

    constructor ()
      ensures Valid() && fresh(buckets) && fresh(dbBuckets) && View() == NoCounts()
    {
      requests, errors, durations, durationTime, active, activeWork := 0, 0, 0, 0, 0, 0;
      dbRequests, dbErrors, dbDurations, dbDurationTime, dbActive := 0, 0, 0, 0, 0;
      buckets := new nat[|BOUNDARIES|](_ => 0);
      dbBuckets := new nat[|BOUNDARIES|](_ => 0);
    }

    method Begin()
      modifies this
      ensures View() == old(View()).(active := old(active) + 1)
    {
      active := active + 1;
    }

    method BeginWork()
      modifies this
      ensures View() == old(View()).(activeWork := old(activeWork) + 1)
    {
      activeWork := activeWork + 1;
    }

    method EndWork()
      modifies this
      ensures View() == old(View()).(activeWork := old(activeWork) - 1)
    {
      activeWork := activeWork - 1;
    }

    method BeginDB()
      modifies this
      ensures View() == old(View()).(dbActive := old(dbActive) + 1)
    {
      dbActive := dbActive + 1;
    }

    method ObserveDB(duration: int, failed: bool)
      requires Valid()
      modifies this, dbBuckets
      ensures View() == old(View()).(dbActive := old(dbActive) - 1, db := Tallied(old(View()).db, duration, failed))
    {
      dbRequests := dbRequests + 1;
      dbActive := dbActive - 1;
      if failed {
        dbErrors := dbErrors + 1;
      }
      dbDurations := dbDurations + 1;
      dbDurationTime := dbDurationTime + duration;
      RecordDuration(dbBuckets, BOUNDARIES, duration);
    }

    method Observe(duration: int, failed: bool)
      requires Valid()
      modifies this, buckets
      ensures View() == old(View()).(active := old(active) - 1, http := Tallied(old(View()).http, duration, failed))
    {
      requests := requests + 1;
      if failed {
        errors := errors + 1;
      }
      durations := durations + 1;
      durationTime := durationTime + duration;
      RecordDuration(buckets, BOUNDARIES, duration);
      active := active - 1;
    }
  }

  // One row of the result, or a failure to scan it.
  datatype Row = Sku(sku: string) | Unreadable

  // inventoryItems: all the skus in order, or nothing if the query, a scan or the
  // iteration failed.
  method InventoryItems(query: Option<seq<Row>>, iterationFails: bool) returns (items: Option<seq<string>>)
    ensures items.Some? <==> query.Some? && !iterationFails && forall r :: r in query.value ==> r.Sku?
    ensures items.Some? ==> |items.value| == |query.value| && forall i :: 0 <= i < |query.value| ==>
      query.value[i] == Sku(items.value[i])
  {
    if query.None? {
      return None;
    }
    var rows, read := query.value, [];
    for i := 0 to |rows|
      invariant |read| == i && forall j :: 0 <= j < i ==> rows[j] == Sku(read[j])
    {
      if rows[i].Unreadable? {
        assert rows[i] in rows;
        return None;
      }
      read := read + [rows[i].sku];
    }
    if iterationFails {
      return None;
    }
    return Some(read);
  }
}
