// The telemetry object of the demo application (cmd/demo-app/main.go).
module DemoApp {
  import opened Counting

  const MILLISECOND: int := 1_000_000

  // Histogram boundaries in nanoseconds.
  const BOUNDARIES: seq<int> := [
    5 * MILLISECOND, 10 * MILLISECOND, 25 * MILLISECOND, 50 * MILLISECOND,
    75 * MILLISECOND, 100 * MILLISECOND, 125 * MILLISECOND, 150 * MILLISECOND, 175 * MILLISECOND,
    200 * MILLISECOND, 225 * MILLISECOND, 250 * MILLISECOND, 275 * MILLISECOND, 300 * MILLISECOND,
    350 * MILLISECOND, 400 * MILLISECOND, 500 * MILLISECOND, 750 * MILLISECOND, 1000 * MILLISECOND,
    2000 * MILLISECOND, 5000 * MILLISECOND]

  // ----- Telemetry -----

  // What the telemetry object shows; the *Time fields are nanoseconds.
  datatype Counters = Counters(
    requests: nat, errors: nat, durations: nat, durationTime: int, buckets: seq<nat>,
    active: int, activeWork: int, workTime: int, slotTime: int, queueTime: int, slotsInUse: int, queueWaiters: int)

  function Positive(d: int): int {
    if d > 0 then d else 0
  }

  function Observe(c: Counters, duration: int, failed: bool): Counters
    requires |c.buckets| == |BOUNDARIES|
  {
    c.(requests := c.requests + 1, errors := c.errors + (if failed then 1 else 0), durations := c.durations + 1,
       durationTime := c.durationTime + duration, buckets := Bumped(c.buckets, BOUNDARIES, duration))
  }

  function EndWork(c: Counters, duration: int): Counters {
    c.(activeWork := c.activeWork - 1, workTime := c.workTime + Positive(duration))
  }

  function AcquiredSlot(c: Counters, queueWait: int): Counters {
    c.(queueWaiters := c.queueWaiters - 1, slotsInUse := c.slotsInUse + 1,
      queueTime := c.queueTime + Positive(queueWait))
  }

  function ReleasedSlot(c: Counters, held: int): Counters {
    c.(slotsInUse := c.slotsInUse - 1, slotTime := c.slotTime + Positive(held))
  }

  function NoCounts(): Counters {
    Counters(0, 0, 0, 0, seq(|BOUNDARIES|, _ => 0), 0, 0, 0, 0, 0, 0, 0)
  }

  // Each method body runs under the mutex, so it is one atomic step.
  class Telemetry {
    var requests: nat
    var errors: nat
    var durations: nat
    var durationTime: int
    const buckets: array<nat>
    var active: int
    var activeWork: int
    var workTime: int
    var slotTime: int
    var queueTime: int
    var slotsInUse: int
    var queueWaiters: int

    ghost predicate Valid() {
      buckets.Length == |BOUNDARIES|
    }

    ghost function View(): Counters
      reads this, buckets
    {
      Counters(requests, errors, durations, durationTime, buckets[..], active, activeWork, workTime, slotTime,
        queueTime, slotsInUse, queueWaiters)
    }

    constructor ()
      ensures Valid() && fresh(buckets) && View() == NoCounts()
    {
      requests, errors, durations, durationTime := 0, 0, 0, 0;
      active, activeWork, workTime, slotTime, queueTime, slotsInUse, queueWaiters := 0, 0, 0, 0, 0, 0, 0;
      buckets := new nat[|BOUNDARIES|](_ => 0);
    }

    method Observed(duration: int, failed: bool)
      requires Valid()
      modifies this, buckets
      ensures View() == Observe(old(View()), duration, failed)
    {
      requests := requests + 1;
      if failed {
        errors := errors + 1;
      }
      durations := durations + 1;
      durationTime := durationTime + duration;
      RecordDuration(buckets, BOUNDARIES, duration);
    }

    method Begin()
      modifies this
      ensures View() == old(View()).(active := old(active) + 1)
    {
      active := active + 1;
    }

    method End()
      modifies this
      ensures View() == old(View()).(active := old(active) - 1)
    {
      active := active - 1;
    }

    method BeginWork()
      modifies this
      ensures View() == old(View()).(activeWork := old(activeWork) + 1)
    {
      activeWork := activeWork + 1;
    }

    method WorkEnded(duration: int)
      modifies this
      ensures View() == EndWork(old(View()), duration)
    {
      activeWork := activeWork - 1;
      if duration > 0 {
        workTime := workTime + duration;
      }
    }

    method BeginSlotQueue()
      modifies this
      ensures View() == old(View()).(queueWaiters := old(queueWaiters) + 1)
    {
      queueWaiters := queueWaiters + 1;
    }

    method SlotAcquired(queueWait: int)
      modifies this
      ensures View() == AcquiredSlot(old(View()), queueWait)
    {
      queueWaiters := queueWaiters - 1;
      slotsInUse := slotsInUse + 1;
      if queueWait > 0 {
        queueTime := queueTime + queueWait;
      }
    }

    method SlotReleased(held: int)
      modifies this
      ensures View() == ReleasedSlot(old(View()), held)
    {
      slotsInUse := slotsInUse - 1;
      if held > 0 {
        slotTime := slotTime + held;
      }
    }
  }
}
