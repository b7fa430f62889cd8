// server.root as interleaved atomic steps: any number of requests, a semaphore
// channel, a telemetry object updated at points that are not atomic with the
// channel, and a clock that ticks in between (cmd/demo-app/main.go).
module DemoProtocol {
  import opened Counting
  import opened DemoApp

  // Where a request is; each step of the handler leads to the next phase.
  datatype Phase =
    | Entered        // started has been read
    | Counted        // begin()
    | Waiting        // beginSlotQueue()
    | Queued         // queueStarted has been read
    | Sent           // s.concurrency <- struct{}{}
    | WaitKnown      // queueWait has been computed
    | SlotTimed      // slotStarted has been read
    | Holding        // acquiredSlot(queueWait)
    | Working        // beginWork()
    | WorkTimed      // the start of the work has been read
    | WorkKnown      // its duration has been computed
    | Worked         // endWork(duration)
    | Answered       // success or failure is settled
    | HeldKnown      // held has been computed
    | Received       // <-s.concurrency
    | Released       // releasedSlot(held)
    | DurationKnown  // the request duration has been computed
    | Recorded       // observe(duration, failed)
    | Done           // end()

  function Rank(p: Phase): nat {
    match p
    case Entered => 0
    case Counted => 1
    case Waiting => 2
    case Queued => 3
    case Sent => 4
    case WaitKnown => 5
    case SlotTimed => 6
    case Holding => 7
    case Working => 8
    case WorkTimed => 9
    case WorkKnown => 10
    case Worked => 11
    case Answered => 12
    case HeldKnown => 13
    case Received => 14
    case Released => 15
    case DurationKnown => 16
    case Recorded => 17
    case Done => 18
  }

  datatype Request = Request(phase: Phase, failed: bool, started: int, queueStarted: int, queueWait: int,
                             slotStarted: int, workStarted: int, workTime: int, held: int, duration: int)

  datatype Config = Config(capacity: nat, work: int)

  datatype State = State(clock: int, channel: int, telemetry: Counters, requests: seq<Request>)

  function Init(clock: int): State {
    State(clock, 0, NoCounts(), [])
  }

  function Arrival(clock: int, failed: bool): Request {
    Request(Entered, failed, clock, 0, 0, 0, 0, 0, 0, 0)
  }

  // The request's own variables after its next step. `fails` is what the call to
  // the inventory decides; an intentional failure stays one.
  function Moved(r: Request, clock: int, work: int, fails: bool): Request {
    match r.phase
    case Entered => r.(phase := Counted)
    case Counted => r.(phase := Waiting)
    case Waiting => r.(phase := Queued, queueStarted := clock)
    case Queued => r.(phase := Sent)
    case Sent => r.(phase := WaitKnown, queueWait := clock - r.queueStarted)
    case WaitKnown => r.(phase := SlotTimed, slotStarted := clock)
    case SlotTimed => r.(phase := Holding)
    case Holding => r.(phase := Working)
    case Working => r.(phase := WorkTimed, workStarted := clock)
    case WorkTimed => r.(phase := WorkKnown, workTime := if work <= 0 then 0 else clock - r.workStarted)
    case WorkKnown => r.(phase := Worked)
    case Worked => r.(phase := Answered, failed := r.failed || fails)
    case Answered => r.(phase := HeldKnown, held := clock - r.slotStarted)
    case HeldKnown => r.(phase := Received)
    case Received => r.(phase := Released)
    case Released => r.(phase := DurationKnown, duration := clock - r.started)
    case DurationKnown => r.(phase := Recorded)
    case Recorded => r.(phase := Done)
    case Done => r
  }

  // What that step does to the telemetry.
  function Told(c: Counters, r: Request): Counters
    requires |c.buckets| == |BOUNDARIES|
  {
    match r.phase
    case Entered => c.(active := c.active + 1)
    case Counted => c.(queueWaiters := c.queueWaiters + 1)
    case SlotTimed => AcquiredSlot(c, r.queueWait)
    case Holding => c.(activeWork := c.activeWork + 1)
    case WorkKnown => EndWork(c, r.workTime)
    case Received => ReleasedSlot(c, r.held)
    case DurationKnown => Observe(c, r.duration, r.failed)
    case Recorded => c.(active := c.active - 1)
    case _ => c
  }

  // And to the number of elements in the channel.
  function ChannelChange(r: Request): int {
    match r.phase
    case Queued => 1
    case HeldKnown => -1
    case _ => 0
  }

  datatype Event = Arrive(failed: bool) | Tick(d: nat) | Advance(k: nat, fails: bool)

  // A send blocks while the channel is full.
  predicate Enabled(cfg: Config, s: State, k: nat) {
    k < |s.requests| && (s.requests[k].phase.Queued? ==> s.channel < cfg.capacity)
  }

  // An event that is not possible leaves the state as it is, so every sequence of
  // events is an interleaving.
  function Next(cfg: Config, s: State, e: Event): State
    requires |s.telemetry.buckets| == |BOUNDARIES|
  {
    match e
    case Arrive(failed) => s.(requests := s.requests + [Arrival(s.clock, failed)])
    case Tick(d) => s.(clock := s.clock + d)
    case Advance(k, fails) =>
      if !Enabled(cfg, s, k) then s
      else
        var r := s.requests[k];
        State(s.clock, s.channel + ChannelChange(r), Told(s.telemetry, r),
          s.requests[k := Moved(r, s.clock, cfg.work, fails)])
  }

  // ----- What a request contributes to each number -----

  predicate Reached(r: Request, p: Phase) {
    Rank(p) <= Rank(r.phase)
  }

  function InPhases(r: Request, lo: Phase, hi: Phase): int {
    if Rank(lo) <= Rank(r.phase) <= Rank(hi) then 1 else 0
  }

  function Between(lo: Phase, hi: Phase): Request -> int {
    (r: Request) => InPhases(r, lo, hi)
  }

  function Occupying(): Request -> int {
    Between(Sent, HeldKnown)
  }

  function QueueTimeOf(r: Request): int { if Reached(r, Holding) then r.queueWait else 0 }
  function WorkTimeOf(r: Request): int { if Reached(r, Worked) then r.workTime else 0 }
  function SlotTimeOf(r: Request): int { if Reached(r, Released) then r.held else 0 }
  function DurationOf(r: Request): int { if Reached(r, Recorded) then r.duration else 0 }
  function RecordedOf(r: Request): int { if Reached(r, Recorded) then 1 else 0 }
  function ErrorOf(r: Request): int { if Reached(r, Recorded) && r.failed then 1 else 0 }
  function WithinOf(r: Request, boundary: int): int { if Reached(r, Recorded) && r.duration <= boundary then 1 else 0 }

  function Within(boundary: int): Request -> int {
    (r: Request) => WithinOf(r, boundary)
  }

  predicate QueuedInTime(r: Request, clock: int) {
    && r.started <= clock
    && (Reached(r, Queued) ==> r.started <= r.queueStarted <= clock)
    && (Reached(r, WaitKnown) ==> r.queueStarted + r.queueWait <= clock)
    && (Reached(r, SlotTimed) ==> r.queueStarted + r.queueWait <= r.slotStarted <= clock)
  }

  predicate HeldInTime(r: Request, clock: int) {
    && (Reached(r, WorkTimed) ==> r.slotStarted <= r.workStarted <= clock)
    && (Reached(r, WorkKnown) ==> r.workStarted + r.workTime <= clock)
    && (Reached(r, HeldKnown) ==> r.workStarted + r.workTime <= r.slotStarted + r.held <= clock)
    && (Reached(r, DurationKnown) ==> r.slotStarted + r.held <= r.started + r.duration <= clock)
  }

  // What has been read lies in the past, in the order of the handler, and every
  // duration fits between the readings around it.
  predicate Timely(r: Request, clock: int) {
    && QueuedInTime(r, clock) && HeldInTime(r, clock)
    && r.queueWait >= 0 && r.workTime >= 0 && r.held >= 0 && r.duration >= 0
  }

  // The telemetry and the channel as exact sums over the requests.
  predicate Gauges(s: State) {
    var t, rs := s.telemetry, s.requests;
    && s.channel == Sum(rs, Occupying())
    && t.active == Sum(rs, Between(Counted, Recorded))
    && t.queueWaiters == Sum(rs, Between(Waiting, SlotTimed))
    && t.slotsInUse == Sum(rs, Between(Holding, Received))
    && t.activeWork == Sum(rs, Between(Working, WorkKnown))
  }

  predicate Totals(s: State) {
    var t, rs := s.telemetry, s.requests;
    && t.queueTime == Sum(rs, QueueTimeOf)
    && t.workTime == Sum(rs, WorkTimeOf)
    && t.slotTime == Sum(rs, SlotTimeOf)
    && t.durationTime == Sum(rs, DurationOf)
    && t.requests == Sum(rs, RecordedOf)
    && t.durations == Sum(rs, RecordedOf)
    && t.errors == Sum(rs, ErrorOf)
  }

  predicate Histogram(s: State) {
    && |s.telemetry.buckets| == |BOUNDARIES|
    && forall i :: 0 <= i < |BOUNDARIES| ==> s.telemetry.buckets[i] == Sum(s.requests, Within(BOUNDARIES[i]))
  }

  predicate Inv(cfg: Config, s: State) {
    && (forall r :: r in s.requests ==> Timely(r, s.clock))
    && Gauges(s) && Totals(s) && Histogram(s)
    && s.channel <= cfg.capacity
  }

  // ----- The invariant -----

  lemma {:induction false} InitInv(cfg: Config, clock: int)
    ensures Inv(cfg, Init(clock))
  {
  }

  lemma ArriveGauges(s: State, r: Request)
    requires Gauges(s) && r.phase == Entered
    ensures Gauges(s.(requests := s.requests + [r]))
  {
    var rs := s.requests;
    SumAppend(rs, r, Occupying());
    SumAppend(rs, r, Between(Counted, Recorded));
    SumAppend(rs, r, Between(Waiting, SlotTimed));
    SumAppend(rs, r, Between(Holding, Received));
    SumAppend(rs, r, Between(Working, WorkKnown));
  }

  lemma ArriveTotals(s: State, r: Request)
    requires Totals(s) && r.phase == Entered
    ensures Totals(s.(requests := s.requests + [r]))
  {
    var rs := s.requests;
    SumAppend(rs, r, QueueTimeOf);
    SumAppend(rs, r, WorkTimeOf);
    SumAppend(rs, r, SlotTimeOf);
    SumAppend(rs, r, DurationOf);
    SumAppend(rs, r, RecordedOf);
    SumAppend(rs, r, ErrorOf);
  }

  lemma ArriveHistogram(s: State, r: Request)
    requires Histogram(s) && r.phase == Entered
    ensures Histogram(s.(requests := s.requests + [r]))
  {
    forall i | 0 <= i < |BOUNDARIES|
      ensures s.telemetry.buckets[i] == Sum(s.requests + [r], Within(BOUNDARIES[i]))
    {
      SumAppend(s.requests, r, Within(BOUNDARIES[i]));
    }
  }

  // One request changed, and every gauge by the difference of its contributions.
  lemma GaugesFollow(s: State, s': State, k: nat, r': Request)
    requires Gauges(s) && k < |s.requests| && s'.requests == s.requests[k := r']
    requires GaugeChange(s.telemetry, s'.telemetry, s'.channel - s.channel, s.requests[k], r')
    ensures Gauges(s')
  {
    var rs := s.requests;
    SumUpdate(rs, k, r', Occupying());
    SumUpdate(rs, k, r', Between(Counted, Recorded));
    SumUpdate(rs, k, r', Between(Waiting, SlotTimed));
    SumUpdate(rs, k, r', Between(Holding, Received));
    SumUpdate(rs, k, r', Between(Working, WorkKnown));
  }

  predicate GaugeChange(t: Counters, t': Counters, channel: int, r: Request, r': Request) {
    && channel == InPhases(r', Sent, HeldKnown) - InPhases(r, Sent, HeldKnown)
    && t'.active - t.active == InPhases(r', Counted, Recorded) - InPhases(r, Counted, Recorded)
    && t'.queueWaiters - t.queueWaiters == InPhases(r', Waiting, SlotTimed) - InPhases(r, Waiting, SlotTimed)
    && t'.slotsInUse - t.slotsInUse == InPhases(r', Holding, Received) - InPhases(r, Holding, Received)
    && t'.activeWork - t.activeWork == InPhases(r', Working, WorkKnown) - InPhases(r, Working, WorkKnown)
  }

  lemma MovedChannel(r: Request, clock: int, work: int, fails: bool)
    ensures var r' := Moved(r, clock, work, fails);
      ChannelChange(r) == InPhases(r', Sent, HeldKnown) - InPhases(r, Sent, HeldKnown)
  {
  }

  lemma MovedActive(t: Counters, r: Request, clock: int, work: int, fails: bool)
    requires |t.buckets| == |BOUNDARIES|
    ensures var r' := Moved(r, clock, work, fails);
      Told(t, r).active - t.active == InPhases(r', Counted, Recorded) - InPhases(r, Counted, Recorded)
  {
  }

  lemma MovedWaiters(t: Counters, r: Request, clock: int, work: int, fails: bool)
    requires |t.buckets| == |BOUNDARIES|
    ensures var r' := Moved(r, clock, work, fails);
      Told(t, r).queueWaiters - t.queueWaiters == InPhases(r', Waiting, SlotTimed) - InPhases(r, Waiting, SlotTimed)
  {
  }

  lemma MovedSlots(t: Counters, r: Request, clock: int, work: int, fails: bool)
    requires |t.buckets| == |BOUNDARIES|
    ensures var r' := Moved(r, clock, work, fails);
      Told(t, r).slotsInUse - t.slotsInUse == InPhases(r', Holding, Received) - InPhases(r, Holding, Received)
  {
  }

  lemma MovedWork(t: Counters, r: Request, clock: int, work: int, fails: bool)
    requires |t.buckets| == |BOUNDARIES|
    ensures var r' := Moved(r, clock, work, fails);
      Told(t, r).activeWork - t.activeWork == InPhases(r', Working, WorkKnown) - InPhases(r, Working, WorkKnown)
  {
  }

  lemma MovedGauges(t: Counters, r: Request, clock: int, work: int, fails: bool)
    requires |t.buckets| == |BOUNDARIES|
    ensures GaugeChange(t, Told(t, r), ChannelChange(r), r, Moved(r, clock, work, fails))
  {
    MovedChannel(r, clock, work, fails);
    MovedActive(t, r, clock, work, fails);
    MovedWaiters(t, r, clock, work, fails);
    MovedSlots(t, r, clock, work, fails);
    MovedWork(t, r, clock, work, fails);
  }

  lemma TotalsFollow(s: State, s': State, k: nat, r': Request)
    requires Totals(s) && k < |s.requests| && s'.requests == s.requests[k := r']
    requires TotalChange(s.telemetry, s'.telemetry, s.requests[k], r')
    ensures Totals(s')
  {
    var rs := s.requests;
    SumUpdate(rs, k, r', QueueTimeOf);
    SumUpdate(rs, k, r', WorkTimeOf);
    SumUpdate(rs, k, r', SlotTimeOf);
    SumUpdate(rs, k, r', DurationOf);
    SumUpdate(rs, k, r', RecordedOf);
    SumUpdate(rs, k, r', ErrorOf);
  }

  predicate TotalChange(t: Counters, t': Counters, r: Request, r': Request) {
    && t'.queueTime - t.queueTime == QueueTimeOf(r') - QueueTimeOf(r)
    && t'.workTime - t.workTime == WorkTimeOf(r') - WorkTimeOf(r)
    && t'.slotTime - t.slotTime == SlotTimeOf(r') - SlotTimeOf(r)
    && t'.durationTime - t.durationTime == DurationOf(r') - DurationOf(r)
    && t'.requests - t.requests == RecordedOf(r') - RecordedOf(r)
    && t'.durations - t.durations == RecordedOf(r') - RecordedOf(r)
    && t'.errors - t.errors == ErrorOf(r') - ErrorOf(r)
  }

  lemma MovedQueueTime(t: Counters, r: Request, clock: int, work: int, fails: bool)
    requires |t.buckets| == |BOUNDARIES| && r.queueWait >= 0
    ensures var r' := Moved(r, clock, work, fails);
      Told(t, r).queueTime - t.queueTime == QueueTimeOf(r') - QueueTimeOf(r)
  {
  }

  lemma MovedWorkTime(t: Counters, r: Request, clock: int, work: int, fails: bool)
    requires |t.buckets| == |BOUNDARIES| && r.workTime >= 0
    ensures var r' := Moved(r, clock, work, fails); Told(t, r).workTime - t.workTime == WorkTimeOf(r') - WorkTimeOf(r)
  {
  }

  lemma MovedSlotTime(t: Counters, r: Request, clock: int, work: int, fails: bool)
    requires |t.buckets| == |BOUNDARIES| && r.held >= 0
    ensures var r' := Moved(r, clock, work, fails); Told(t, r).slotTime - t.slotTime == SlotTimeOf(r') - SlotTimeOf(r)
  {
  }

  lemma MovedRecords(t: Counters, r: Request, clock: int, work: int, fails: bool)
    requires |t.buckets| == |BOUNDARIES|
    ensures var r', t' := Moved(r, clock, work, fails), Told(t, r);
      && t'.durationTime - t.durationTime == DurationOf(r') - DurationOf(r)
      && t'.requests - t.requests == RecordedOf(r') - RecordedOf(r)
      && t'.durations - t.durations == RecordedOf(r') - RecordedOf(r)
      && t'.errors - t.errors == ErrorOf(r') - ErrorOf(r)
  {
  }

  lemma MovedTotals(t: Counters, r: Request, clock: int, work: int, fails: bool)
    requires |t.buckets| == |BOUNDARIES| && Timely(r, clock)
    ensures TotalChange(t, Told(t, r), r, Moved(r, clock, work, fails))
  {
    MovedQueueTime(t, r, clock, work, fails);
    MovedWorkTime(t, r, clock, work, fails);
    MovedSlotTime(t, r, clock, work, fails);
    MovedRecords(t, r, clock, work, fails);
  }

  predicate BucketChange(t: Counters, t': Counters, r: Request, r': Request)
    requires |t.buckets| == |BOUNDARIES|
  {
    && |t'.buckets| == |BOUNDARIES|
    && forall i :: 0 <= i < |BOUNDARIES| ==>
        t'.buckets[i] + WithinOf(r, BOUNDARIES[i]) == t.buckets[i] + WithinOf(r', BOUNDARIES[i])
  }

  lemma MovedBuckets(t: Counters, r: Request, clock: int, work: int, fails: bool)
    requires |t.buckets| == |BOUNDARIES|
    ensures BucketChange(t, Told(t, r), r, Moved(r, clock, work, fails))
  {
  }

  lemma HistogramFollows(s: State, s': State, k: nat, r': Request)
    requires Histogram(s) && k < |s.requests| && s'.requests == s.requests[k := r']
    requires BucketChange(s.telemetry, s'.telemetry, s.requests[k], r')
    ensures Histogram(s')
  {
    forall i | 0 <= i < |BOUNDARIES|
      ensures s'.telemetry.buckets[i] == Sum(s'.requests, Within(BOUNDARIES[i]))
    {
      SumUpdate(s.requests, k, r', Within(BOUNDARIES[i]));
    }
  }

  lemma AdvanceTimely(r: Request, clock: int, work: int, fails: bool)
    requires Timely(r, clock)
    ensures Timely(Moved(r, clock, work, fails), clock)
  {
    MovedQueued(r, clock, work, fails);
    MovedHeld(r, clock, work, fails);
    MovedDurations(r, clock, work, fails);
  }

  lemma MovedQueued(r: Request, clock: int, work: int, fails: bool)
    requires QueuedInTime(r, clock)
    ensures QueuedInTime(Moved(r, clock, work, fails), clock)
  {
  }

  lemma MovedHeld(r: Request, clock: int, work: int, fails: bool)
    requires Timely(r, clock)
    ensures HeldInTime(Moved(r, clock, work, fails), clock)
  {
  }

  lemma MovedDurations(r: Request, clock: int, work: int, fails: bool)
    requires Timely(r, clock)
    ensures var r' := Moved(r, clock, work, fails);
      r'.queueWait >= 0 && r'.workTime >= 0 && r'.held >= 0 && r'.duration >= 0
  {
  }

  lemma AdvanceInv(cfg: Config, s: State, k: nat, fails: bool)
    requires Inv(cfg, s)
    ensures Inv(cfg, Next(cfg, s, Advance(k, fails)))
  {
    if Enabled(cfg, s, k) {
      var r, s' := s.requests[k], Next(cfg, s, Advance(k, fails));
      var r' := Moved(r, s.clock, cfg.work, fails);
      MovedGauges(s.telemetry, r, s.clock, cfg.work, fails);
      MovedTotals(s.telemetry, r, s.clock, cfg.work, fails);
      MovedBuckets(s.telemetry, r, s.clock, cfg.work, fails);
      AdvanceTimely(r, s.clock, cfg.work, fails);
      GaugesFollow(s, s', k, r');
      TotalsFollow(s, s', k, r');
      HistogramFollows(s, s', k, r');
    }
  }

  lemma ArrivalTimely(clock: int, failed: bool)
    ensures Timely(Arrival(clock, failed), clock)
  {
  }

  lemma ArriveInv(cfg: Config, s: State, failed: bool)
    requires Inv(cfg, s)
    ensures Inv(cfg, Next(cfg, s, Arrive(failed)))
  {
    var r := Arrival(s.clock, failed);
    ArriveGauges(s, r);
    ArriveTotals(s, r);
    ArriveHistogram(s, r);
    ArrivalTimely(s.clock, failed);
  }

  lemma TickInv(cfg: Config, s: State, d: nat)
    requires Inv(cfg, s)
    ensures Inv(cfg, Next(cfg, s, Tick(d)))
  {
  }

  lemma NextInv(cfg: Config, s: State, e: Event)
    requires Inv(cfg, s)
    ensures Inv(cfg, Next(cfg, s, e))
  {
    match e
    case Arrive(failed) => ArriveInv(cfg, s, failed);
    case Tick(d) => TickInv(cfg, s, d);
    case Advance(k, fails) => AdvanceInv(cfg, s, k, fails);
  }

  // The telemetry object does what the protocol says of its numbers.
  method Tell(t: Telemetry, r: Request)
    requires t.Valid()
    modifies t, t.buckets
    ensures t.View() == Told(old(t.View()), r)
  {
    match r.phase
    case Entered => t.Begin();
    case Counted => t.BeginSlotQueue();
    case SlotTimed => t.SlotAcquired(r.queueWait);
    case Holding => t.BeginWork();
    case WorkKnown => t.WorkEnded(r.workTime);
    case Received => t.SlotReleased(r.held);
    case DurationKnown => t.Observed(r.duration, r.failed);
    case Recorded => t.End();
    case _ =>
  }
}
