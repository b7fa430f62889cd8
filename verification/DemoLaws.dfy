// What every interleaving of the demo application's requests keeps: the
// slot-seconds bound, exact gauges, exact totals, and quiet at the end.
module DemoLaws {
  import opened Counting
  import opened DemoApp
  import opened DemoProtocol

  // The state after any sequence of events.
  function After(cfg: Config, s: State, events: seq<Event>): State
    requires |s.telemetry.buckets| == |BOUNDARIES|
    ensures |After(cfg, s, events).telemetry.buckets| == |BOUNDARIES|
  {
    if |events| == 0 then s
    else Next(cfg, After(cfg, s, events[..|events| - 1]), events[|events| - 1])
  }

  lemma {:induction false} InvAlways(cfg: Config, s: State, events: seq<Event>)
    requires Inv(cfg, s)
    ensures Inv(cfg, After(cfg, s, events))
  {
    if |events| > 0 {
      InvAlways(cfg, s, events[..|events| - 1]);
      NextInv(cfg, After(cfg, s, events[..|events| - 1]), events[|events| - 1]);
    }
  }

  // ----- Slot seconds -----

  // The time a request has held its slot, by the handler's own clock readings.
  function HoldTimeOf(r: Request, clock: int): int {
    if Reached(r, HeldKnown) then r.held else if Reached(r, SlotTimed) then clock - r.slotStarted else 0
  }

  function HoldTime(clock: int): Request -> int {
    (r: Request) => HoldTimeOf(r, clock)
  }

  // Still running: slot timed, held not yet computed.
  function RunningTime(clock: int): Request -> int {
    (r: Request) => if Reached(r, SlotTimed) && !Reached(r, HeldKnown) then clock - r.slotStarted else 0
  }

  // Computed, but not yet added to the counter.
  function Uncredited(): Request -> int {
    (r: Request) => if Reached(r, HeldKnown) && !Reached(r, Released) then r.held else 0
  }

  function Running(): Request -> int {
    Between(SlotTimed, Answered)
  }

  function Held(s: State): int {
    Sum(s.requests, HoldTime(s.clock))
  }

  lemma MovedHold(r: Request, clock: int, work: int, fails: bool)
    ensures HoldTimeOf(Moved(r, clock, work, fails), clock) == HoldTimeOf(r, clock)
  {
  }

  lemma TickHeld(rs: seq<Request>, clock: int, d: nat, capacity: int)
    requires Sum(rs, Occupying()) <= capacity
    ensures Sum(rs, HoldTime(clock + d)) - Sum(rs, HoldTime(clock)) <= capacity * d
  {
    SumCombine(rs, HoldTime(clock), d, Running(), HoldTime(clock + d));
    SumAtMost(rs, Running(), Occupying());
    ScaleAtMost(d, Sum(rs, Running()), capacity);
  }

  lemma ScaleAtMost(d: int, a: int, b: int)
    requires d >= 0 && a <= b
    ensures d * a <= b * d
  {
  }

  lemma ArriveHeld(rs: seq<Request>, clock: int, failed: bool)
    ensures Sum(rs + [Arrival(clock, failed)], HoldTime(clock)) == Sum(rs, HoldTime(clock))
  {
    SumAppend(rs, Arrival(clock, failed), HoldTime(clock));
  }

  lemma AdvanceHeld(rs: seq<Request>, k: nat, clock: int, work: int, fails: bool)
    requires k < |rs|
    ensures Sum(rs[k := Moved(rs[k], clock, work, fails)], HoldTime(clock)) == Sum(rs, HoldTime(clock))
  {
    MovedHold(rs[k], clock, work, fails);
    SumUpdate(rs, k, Moved(rs[k], clock, work, fails), HoldTime(clock));
  }

  lemma HeldGrowsBy(cfg: Config, s: State, e: Event, d: nat)
    requires Sum(s.requests, Occupying()) <= cfg.capacity && |s.telemetry.buckets| == |BOUNDARIES|
    requires d == if e.Tick? then e.d else 0
    ensures Next(cfg, s, e).clock == s.clock + d
    ensures Held(Next(cfg, s, e)) - Held(s) <= cfg.capacity * d
  {
    if e.Tick? {
      TickHeld(s.requests, s.clock, d, cfg.capacity);
    } else {
      HeldUnchanged(cfg, s, e);
    }
  }

  // Held time less what the channel could have carried since time zero.
  function Excess(cfg: Config, s: State): int {
    Held(s) - cfg.capacity * s.clock
  }

  // Only the clock makes held time grow, and no faster than the channel allows.
  lemma ExcessNeverGrows(cfg: Config, s: State, e: Event)
    requires Sum(s.requests, Occupying()) <= cfg.capacity && |s.telemetry.buckets| == |BOUNDARIES|
    ensures Next(cfg, s, e).clock >= s.clock && Excess(cfg, Next(cfg, s, e)) <= Excess(cfg, s)
  {
    var d := if e.Tick? then e.d else 0;
    HeldGrowsBy(cfg, s, e, d);
    assert cfg.capacity * (s.clock + d) == cfg.capacity * s.clock + cfg.capacity * d;
  }

  lemma HeldUnchanged(cfg: Config, s: State, e: Event)
    requires !e.Tick? && |s.telemetry.buckets| == |BOUNDARIES|
    ensures Next(cfg, s, e).clock == s.clock && Held(Next(cfg, s, e)) == Held(s)
  {
    match e
    case Arrive(failed) => ArriveHeld(s.requests, s.clock, failed);
    case Advance(k, fails) =>
      if Enabled(cfg, s, k) {
        AdvanceHeld(s.requests, k, s.clock, cfg.work, fails);
      }
  }

  lemma {:induction false} ExcessOverSegment(cfg: Config, s: State, events: seq<Event>)
    requires Inv(cfg, s)
    ensures After(cfg, s, events).clock >= s.clock && Excess(cfg, After(cfg, s, events)) <= Excess(cfg, s)
  {
    if |events| > 0 {
      var front := events[..|events| - 1];
      ExcessOverSegment(cfg, s, front);
      InvAlways(cfg, s, front);
      ExcessNeverGrows(cfg, After(cfg, s, front), events[|events| - 1]);
    }
  }

  lemma HeldBound(cfg: Config, s: State, events: seq<Event>)
    requires Inv(cfg, s)
    ensures var s' := After(cfg, s, events);
      s'.clock >= s.clock && Held(s') - Held(s) <= cfg.capacity * (s'.clock - s.clock)
  {
    ExcessOverSegment(cfg, s, events);
    Distribute(cfg.capacity, After(cfg, s, events).clock, s.clock);
  }

  lemma Distribute(a: int, b: int, c: int)
    ensures a * (b - c) == a * b - a * c
  {
  }

  function Rest(clock: int): Request -> int {
    (r: Request) => HoldTimeOf(r, clock) - SlotTimeOf(r)
  }

  // Held time is what is credited, plus what runs, plus what waits for credit.
  lemma HeldSplits(rs: seq<Request>, clock: int)
    ensures Sum(rs, HoldTime(clock)) == Sum(rs, SlotTimeOf) + Sum(rs, RunningTime(clock)) + Sum(rs, Uncredited())
  {
    SumCombine(rs, SlotTimeOf, 1, Rest(clock), HoldTime(clock));
    SumCombine(rs, RunningTime(clock), 1, Uncredited(), Rest(clock));
  }

  lemma SumNonnegative(rs: seq<Request>, f: Request -> int)
    requires forall r :: r in rs ==> f(r) >= 0
    ensures Sum(rs, f) >= 0
  {
    SumZero(rs, Nothing());
    SumAtMost(rs, Nothing(), f);
  }

  function Nothing(): Request -> int {
    (r: Request) => 0
  }

  lemma OpenHoldsNonnegative(rs: seq<Request>, clock: int)
    requires forall r :: r in rs ==> Timely(r, clock)
    ensures Sum(rs, RunningTime(clock)) >= 0 && Sum(rs, Uncredited()) >= 0
  {
    SumNonnegative(rs, RunningTime(clock));
    SumNonnegative(rs, Uncredited());
  }

  // In every interleaving the slot-seconds counter, plus the time current holders
  // have measured so far, plus what is measured but not yet credited, stays
  // within capacity times elapsed time.
  lemma SlotSecondsBound(cfg: Config, start: int, events: seq<Event>)
    ensures var s := After(cfg, Init(start), events);
      s.telemetry.slotTime + Sum(s.requests, RunningTime(s.clock)) + Sum(s.requests, Uncredited())
        <= cfg.capacity * (s.clock - start)
    ensures After(cfg, Init(start), events).telemetry.slotTime
      <= cfg.capacity * (After(cfg, Init(start), events).clock - start)
  {
    var s := After(cfg, Init(start), events);
    InitInv(cfg, start);
    InvAlways(cfg, Init(start), events);
    HeldBound(cfg, Init(start), events);
    HeldSplits(s.requests, s.clock);
    OpenHoldsNonnegative(s.requests, s.clock);
    assert Held(Init(start)) == 0;
  }

  // Over a window the counter can move by more than capacity times the window,
  // but only by what was already held when the window opened.
  lemma WindowBound(cfg: Config, s: State, events: seq<Event>)
    requires Inv(cfg, s)
    ensures var s' := After(cfg, s, events);
      s'.telemetry.slotTime - s.telemetry.slotTime <=
        cfg.capacity * (s'.clock - s.clock) + Sum(s.requests, RunningTime(s.clock)) + Sum(s.requests, Uncredited())
  {
    HeldBound(cfg, s, events);
    InvAlways(cfg, s, events);
    var s' := After(cfg, s, events);
    HeldSplits(s.requests, s.clock);
    HeldSplits(s'.requests, s'.clock);
    OpenHoldsNonnegative(s'.requests, s'.clock);
  }

  // ----- Gauges -----

  // The slots gauge is the channel, less slots acquired but not yet counted, plus
  // slots given back but not yet discounted; so it can exceed the capacity only
  // by the latter. Work only happens inside a slot.
  lemma GaugesAreExact(cfg: Config, start: int, events: seq<Event>)
    ensures var s := After(cfg, Init(start), events); var t, rs := s.telemetry, s.requests;
      && t.slotsInUse == s.channel - Sum(rs, Between(Sent, SlotTimed)) + Sum(rs, Between(Received, Received))
      && 0 <= s.channel <= cfg.capacity
      && t.slotsInUse <= cfg.capacity + Sum(rs, Between(Received, Received))
      && 0 <= t.activeWork <= s.channel
      && t.active == Sum(rs, Between(Counted, Recorded)) && t.queueWaiters == Sum(rs, Between(Waiting, SlotTimed))
  {
    InitInv(cfg, start);
    InvAlways(cfg, Init(start), events);
    PhasesSplit(After(cfg, Init(start), events).requests);
  }

  lemma PhasesSplit(rs: seq<Request>)
    ensures Sum(rs, Between(Holding, Received))
      == Sum(rs, Occupying()) - Sum(rs, Between(Sent, SlotTimed)) + Sum(rs, Between(Received, Received))
    ensures 0 <= Sum(rs, Between(Working, WorkKnown)) <= Sum(rs, Occupying()) && 0 <= Sum(rs, Between(Sent, SlotTimed))
  {
    SumCombine(rs, Between(Sent, SlotTimed), 1, Between(Holding, HeldKnown), Occupying());
    SumCombine(rs, Between(Holding, HeldKnown), 1, Between(Received, Received), Between(Holding, Received));
    SumAtMost(rs, Between(Working, WorkKnown), Occupying());
    SumNonnegative(rs, Between(Working, WorkKnown));
    SumNonnegative(rs, Between(Sent, SlotTimed));
  }

  // ----- Two things the numbers do not promise -----

  lemma {:induction false} AfterConcat(cfg: Config, s: State, first: seq<Event>, second: seq<Event>)
    requires |s.telemetry.buckets| == |BOUNDARIES|
    ensures After(cfg, s, first + second) == After(cfg, After(cfg, s, first), second)
  {
    if |second| == 0 {
      assert first + second == first;
    } else {
      var front := second[..|second| - 1];
      AfterConcat(cfg, s, first, front);
      assert (first + second)[..|first + second| - 1] == first + front;
    }
  }

  // Request k takes n steps on its own.
  function Alone(k: nat, n: nat): seq<Event> {
    seq(n, _ => Advance(k, false))
  }

  lemma MovedRank(r: Request, clock: int, work: int)
    requires r.phase != Done
    ensures Rank(Moved(r, clock, work, false).phase) == Rank(r.phase) + 1
  {
  }

  lemma RankIsInjective(p: Phase, q: Phase)
    requires Rank(p) == Rank(q)
    ensures p == q
  {
  }

  // As long as it need not wait for the channel, it gets n phases further and
  // nobody else moves.
  lemma {:induction false} AloneAdvances(cfg: Config, s: State, k: nat, n: nat)
    requires |s.telemetry.buckets| == |BOUNDARIES| && k < |s.requests|
    requires Rank(s.requests[k].phase) + n <= Rank(Done)
    requires s.channel < cfg.capacity || Rank(s.requests[k].phase) + n <= Rank(Queued)
    ensures var s' := After(cfg, s, Alone(k, n));
      && |s'.requests| == |s.requests| && s'.requests == s.requests[k := s'.requests[k]] && s'.clock == s.clock
      && Rank(s'.requests[k].phase) == Rank(s.requests[k].phase) + n
      && (Rank(s'.requests[k].phase) <= Rank(Queued) ==> s'.channel == s.channel)
  {
    if n > 0 {
      AloneAdvances(cfg, s, k, n - 1);
      assert Alone(k, n)[..n - 1] == Alone(k, n - 1);
      var m := After(cfg, s, Alone(k, n - 1));
      MovedRank(m.requests[k], m.clock, cfg.work);
      assert Enabled(cfg, m, k);
      assert After(cfg, s, Alone(k, n)) == Next(cfg, m, Advance(k, false));
    }
  }

  predicate AllReceived(s: State) {
    forall r :: r in s.requests ==> r.phase == Received
  }

  lemma EmptyWhenReceived(cfg: Config, s: State)
    requires Inv(cfg, s) && AllReceived(s)
    ensures s.channel == 0 && s.telemetry.slotsInUse == |s.requests|
  {
    SumZero(s.requests, Occupying());
    SumOnes(s.requests, Between(Holding, Received));
  }

  // One more request arrives and runs until it has given its slot back.
  lemma OneMoreReceived(cfg: Config, s: State, n: nat) returns (events: seq<Event>)
    requires |s.telemetry.buckets| == |BOUNDARIES| && cfg.capacity >= 1 && s.channel == 0
    requires AllReceived(s) && n == |s.requests|
    ensures AllReceived(After(cfg, s, events)) && |After(cfg, s, events).requests| == n + 1
  {
    var arrived := Next(cfg, s, Arrive(false));
    assert [Arrive(false)][..0] == [] && After(cfg, s, [Arrive(false)]) == arrived;
    AloneAdvances(cfg, arrived, n, 14);
    var s' := After(cfg, arrived, Alone(n, 14));
    RankIsInjective(s'.requests[n].phase, Received);
    events := [Arrive(false)] + Alone(n, 14);
    AfterConcat(cfg, s, [Arrive(false)], Alone(n, 14));
  }

  lemma {:induction false} PileUp(cfg: Config, start: int, n: nat) returns (events: seq<Event>)
    requires cfg.capacity >= 1
    ensures var s := After(cfg, Init(start), events); Inv(cfg, s) && AllReceived(s) && |s.requests| == n
  {
    if n == 0 {
      events := [];
      InitInv(cfg, start);
    } else {
      var before := PileUp(cfg, start, n - 1);
      var s := After(cfg, Init(start), before);
      EmptyWhenReceived(cfg, s);
      var more := OneMoreReceived(cfg, s, n - 1);
      events := before + more;
      AfterConcat(cfg, Init(start), before, more);
      InitInv(cfg, start);
      InvAlways(cfg, Init(start), events);
    }
  }

  // A slot that has been given back can be taken again before the gauge is told.
  // So the gauge is not bounded by the capacity, nor by anything else: for every
  // capacity and every n some run makes it n, with no slot held at all.
  lemma SlotsGaugeIsUnbounded(cfg: Config, start: int, n: nat) returns (events: seq<Event>)
    requires cfg.capacity >= 1
    ensures var s := After(cfg, Init(start), events); s.telemetry.slotsInUse == n && s.channel == 0
  {
    events := PileUp(cfg, start, n);
    EmptyWhenReceived(cfg, After(cfg, Init(start), events));
  }

  // A hold is credited in one piece when it ends, so over a window without any
  // length the counter can move by as much as was held before.
  lemma CreditComesAtOnce(cfg: Config, s: State, k: nat, fails: bool)
    requires Inv(cfg, s) && k < |s.requests| && s.requests[k].phase == Received
    ensures var s' := Next(cfg, s, Advance(k, fails));
      s'.clock == s.clock && s'.telemetry.slotTime == s.telemetry.slotTime + s.requests[k].held
  {
    assert s.requests[k] in s.requests;
  }

  // ----- At rest -----

  predicate AllDone(s: State) {
    forall r :: r in s.requests ==> r.phase == Done
  }

  function HeldOf(r: Request): int { r.held }
  function TookOf(r: Request): int { r.duration }
  function WaitedOf(r: Request): int { r.queueWait }
  function WorkedOf(r: Request): int { r.workTime }
  function FailedOf(r: Request): int { if r.failed then 1 else 0 }

  function TookAtMost(boundary: int): Request -> int {
    (r: Request) => if r.duration <= boundary then 1 else 0
  }

  // When every request is done, the channel is empty, all gauges are back at
  // zero, and the totals count exactly the requests that came: bucket i holds
  // those that took no longer than boundary i, queueing and slot time included.
  lemma Quiescence(cfg: Config, start: int, events: seq<Event>)
    requires AllDone(After(cfg, Init(start), events))
    ensures var s := After(cfg, Init(start), events); var t, rs := s.telemetry, s.requests;
      && s.channel == 0 && t.active == 0 && t.queueWaiters == 0 && t.slotsInUse == 0 && t.activeWork == 0
      && t.requests == t.durations == |rs| && t.errors == Sum(rs, FailedOf)
      && t.slotTime == Sum(rs, HeldOf) && t.durationTime == Sum(rs, TookOf)
      && t.queueTime == Sum(rs, WaitedOf) && t.workTime == Sum(rs, WorkedOf)
      && t.workTime <= t.slotTime && t.queueTime + t.slotTime <= t.durationTime
      && forall i :: 0 <= i < |BOUNDARIES| ==> t.buckets[i] == Sum(rs, TookAtMost(BOUNDARIES[i]))
  {
    InitInv(cfg, start);
    InvAlways(cfg, Init(start), events);
    var s := After(cfg, Init(start), events);
    QuietGauges(s);
    QuietTotals(s);
    DurationsCoverQueueing(s);
    QuietHistogram(s);
  }

  lemma QuietGauges(s: State)
    requires Gauges(s) && AllDone(s)
    ensures s.channel == 0 && s.telemetry.active == 0 && s.telemetry.queueWaiters == 0 && s.telemetry.slotsInUse == 0
      && s.telemetry.activeWork == 0
  {
    NoneBetween(s.requests, Sent, HeldKnown);
    NoneBetween(s.requests, Counted, Recorded);
    NoneBetween(s.requests, Waiting, SlotTimed);
    NoneBetween(s.requests, Holding, Received);
    NoneBetween(s.requests, Working, WorkKnown);
  }

  lemma NoneBetween(rs: seq<Request>, lo: Phase, hi: Phase)
    requires forall r :: r in rs ==> r.phase == Done
    requires Rank(hi) < Rank(Done)
    ensures Sum(rs, Between(lo, hi)) == 0
  {
    SumZero(rs, Between(lo, hi));
  }

  function WaitedAndHeld(): Request -> int {
    (r: Request) => r.queueWait + r.held
  }

  lemma DoneInTime(r: Request, clock: int)
    requires r.phase == Done && Timely(r, clock)
    ensures r.workTime <= r.held && r.queueWait + r.held <= r.duration
  {
  }

  lemma DurationsCoverQueueing(s: State)
    requires Totals(s) && AllDone(s) && forall r :: r in s.requests ==> Timely(r, s.clock)
    ensures var t, rs := s.telemetry, s.requests;
      && t.queueTime == Sum(rs, WaitedOf) && t.workTime == Sum(rs, WorkedOf)
      && t.workTime <= t.slotTime && t.queueTime + t.slotTime <= t.durationTime
  {
    var rs := s.requests;
    QuietTotals(s);
    forall r | r in rs
      ensures QueueTimeOf(r) == WaitedOf(r) && WorkTimeOf(r) == WorkedOf(r)
      ensures WorkedOf(r) <= HeldOf(r) && WaitedAndHeld()(r) <= TookOf(r)
    {
      DoneInTime(r, s.clock);
    }
    SumSame(rs, QueueTimeOf, WaitedOf);
    SumSame(rs, WorkTimeOf, WorkedOf);
    SumAtMost(rs, WorkedOf, HeldOf);
    SumCombine(rs, WaitedOf, 1, HeldOf, WaitedAndHeld());
    SumAtMost(rs, WaitedAndHeld(), TookOf);
  }

  lemma DoneContributes(r: Request)
    requires r.phase == Done
    ensures SlotTimeOf(r) == HeldOf(r) && DurationOf(r) == TookOf(r) && ErrorOf(r) == FailedOf(r) && RecordedOf(r) == 1
  {
  }

  lemma QuietTotals(s: State)
    requires Totals(s) && AllDone(s)
    ensures var t, rs := s.telemetry, s.requests;
      && t.requests == t.durations == |rs| && t.errors == Sum(rs, FailedOf)
      && t.slotTime == Sum(rs, HeldOf) && t.durationTime == Sum(rs, TookOf)
  {
    forall r | r in s.requests
      ensures SlotTimeOf(r) == HeldOf(r) && DurationOf(r) == TookOf(r) && ErrorOf(r) == FailedOf(r)
        && RecordedOf(r) == 1
    {
      DoneContributes(r);
    }
    SumSame(s.requests, SlotTimeOf, HeldOf);
    SumSame(s.requests, DurationOf, TookOf);
    SumSame(s.requests, ErrorOf, FailedOf);
    SumOnes(s.requests, RecordedOf);
  }

  lemma QuietHistogram(s: State)
    requires Histogram(s) && AllDone(s)
    ensures forall i :: 0 <= i < |BOUNDARIES| ==> s.telemetry.buckets[i] == Sum(s.requests, TookAtMost(BOUNDARIES[i]))
  {
    forall i | 0 <= i < |BOUNDARIES|
      ensures s.telemetry.buckets[i] == Sum(s.requests, TookAtMost(BOUNDARIES[i]))
    {
      SumSame(s.requests, Within(BOUNDARIES[i]), TookAtMost(BOUNDARIES[i]));
    }
  }

  // The histogram is cumulative in every reachable state.
  lemma BucketsAreCumulative(cfg: Config, start: int, events: seq<Event>, i: nat, j: nat)
    requires i <= j < |BOUNDARIES|
    ensures var t := After(cfg, Init(start), events).telemetry; t.buckets[i] <= t.buckets[j] <= t.durations
  {
    InitInv(cfg, start);
    InvAlways(cfg, Init(start), events);
    var rs := After(cfg, Init(start), events).requests;
    assert BOUNDARIES[i] <= BOUNDARIES[j];
    SumAtMost(rs, Within(BOUNDARIES[i]), Within(BOUNDARIES[j]));
    SumAtMost(rs, Within(BOUNDARIES[j]), RecordedOf);
  }
}
