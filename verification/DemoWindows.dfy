// The slot-seconds counter over a window: what exactly it moves by, and a run in
// which it moves by more than the window can hold.
module DemoWindows {
  import opened Counting
  import opened DemoApp
  import opened DemoProtocol
  import opened DemoLaws
  import opened DemoProgress

  // Slot time that has begun but is not in the counter yet.
  function Open(s: State): int {
    Sum(s.requests, RunningTime(s.clock)) + Sum(s.requests, Uncredited())
  }

  lemma HeldIsCreditedOrOpen(cfg: Config, s: State)
    requires Inv(cfg, s)
    ensures Held(s) == s.telemetry.slotTime + Open(s) && Open(s) >= 0
  {
    HeldSplits(s.requests, s.clock);
    OpenHoldsNonnegative(s.requests, s.clock);
  }

  // The counter moves by the time newly held plus what was open before and is
  // not any more, and no more is newly held than the window allows.
  lemma WindowAccount(cfg: Config, s: State, events: seq<Event>)
    requires Inv(cfg, s)
    ensures var s' := After(cfg, s, events);
      && s'.telemetry.slotTime - s.telemetry.slotTime == Held(s') - Held(s) + Open(s) - Open(s')
      && Held(s') - Held(s) <= cfg.capacity * (s'.clock - s.clock)
  {
    InvAlways(cfg, s, events);
    HeldBound(cfg, s, events);
    HeldIsCreditedOrOpen(cfg, s);
    HeldIsCreditedOrOpen(cfg, After(cfg, s, events));
  }

  // ----- Which windows are bounded -----

  // The counter moves by no more than capacity times the window.
  predicate WindowFits(cfg: Config, s: State, events: seq<Event>)
    requires |s.telemetry.buckets| == |BOUNDARIES|
  {
    var s' := After(cfg, s, events);
    s'.telemetry.slotTime - s.telemetry.slotTime <= cfg.capacity * (s'.clock - s.clock)
  }

  lemma {:induction false} StepsTakeNoTime(cfg: Config, s: State, events: seq<Event>)
    requires |s.telemetry.buckets| == |BOUNDARIES| && forall e :: e in events ==> e.Advance?
    ensures After(cfg, s, events).clock == s.clock && Held(After(cfg, s, events)) == Held(s)
  {
    if |events| > 0 {
      var front := events[..|events| - 1];
      StepsTakeNoTime(cfg, s, front);
      assert events[|events| - 1] in events;
      HeldUnchanged(cfg, After(cfg, s, front), events[|events| - 1]);
    }
  }

  lemma NothingOpenWhenDone(s: State)
    requires AllDone(s)
    ensures Open(s) == 0
  {
    SumZero(s.requests, RunningTime(s.clock));
    SumZero(s.requests, Uncredited());
  }

  // If something is open, the requests can settle all of it in no time.
  lemma SettleEverything(cfg: Config, s: State) returns (events: seq<Event>)
    requires cfg.capacity >= 1 && Inv(cfg, s)
    ensures var s' := After(cfg, s, events);
      && s'.clock == s.clock && s'.telemetry.slotTime - s.telemetry.slotTime == Open(s)
      && cfg.capacity * (s'.clock - s.clock) == 0
  {
    events := CanFinish(cfg, s);
    StepsTakeNoTime(cfg, s, events);
    NothingOpenWhenDone(After(cfg, s, events));
    InvAlways(cfg, s, events);
    HeldIsCreditedOrOpen(cfg, s);
    HeldIsCreditedOrOpen(cfg, After(cfg, s, events));
    NoTime(cfg.capacity, After(cfg, s, events).clock - s.clock);
  }

  lemma NoRoomInNoTime(cfg: Config, s: State, events: seq<Event>)
    requires |s.telemetry.buckets| == |BOUNDARIES|
    requires var s' := After(cfg, s, events);
      cfg.capacity * (s'.clock - s.clock) == 0 && s'.telemetry.slotTime > s.telemetry.slotTime
    ensures !WindowFits(cfg, s, events)
  {
  }

  lemma OpenTimeBreaksAWindow(cfg: Config, s: State) returns (events: seq<Event>)
    requires cfg.capacity >= 1 && Inv(cfg, s) && Open(s) > 0
    ensures !WindowFits(cfg, s, events)
  {
    events := SettleEverything(cfg, s);
    NoRoomInNoTime(cfg, s, events);
  }

  lemma OpenIsNonnegative(cfg: Config, s: State)
    requires Inv(cfg, s)
    ensures Open(s) >= 0
  {
    HeldIsCreditedOrOpen(cfg, s);
  }

  // Every window that opens in s is bounded by capacity times its length exactly
  // when nothing is open in s.
  lemma EveryWindowFitsIffNothingOpen(cfg: Config, s: State)
    requires cfg.capacity >= 1 && Inv(cfg, s)
    ensures Open(s) == 0 <==> forall events :: WindowFits(cfg, s, events)
  {
    OpenIsNonnegative(cfg, s);
    if Open(s) == 0 {
      forall events
        ensures WindowFits(cfg, s, events)
      {
        WindowBound(cfg, s, events);
      }
    } else {
      var events := OpenTimeBreaksAWindow(cfg, s);
    }
  }

  lemma NoTime(capacity: int, d: int)
    requires d == 0
    ensures capacity * d == 0
  {
  }

  // ----- A run in which the counter jumps -----

  lemma {:induction false} AloneKeepsHeld(cfg: Config, s: State, k: nat, n: nat)
    requires |s.telemetry.buckets| == |BOUNDARIES|
    ensures Held(After(cfg, s, Alone(k, n))) == Held(s)
  {
    if n > 0 {
      AloneKeepsHeld(cfg, s, k, n - 1);
      assert Alone(k, n)[..n - 1] == Alone(k, n - 1);
      HeldUnchanged(cfg, After(cfg, s, Alone(k, n - 1)), Advance(k, false));
    }
  }

  lemma SumOfOne(rs: seq<Request>, f: Request -> int)
    requires |rs| == 1
    ensures Sum(rs, f) == f(rs[0])
  {
    assert rs[..0] == [];
  }

  lemma OneArrival(cfg: Config, start: int) returns (s: State)
    ensures s == After(cfg, Init(start), [Arrive(false)]) && s.requests == [Arrival(start, false)]
    ensures s.clock == start && s.channel == 0 && Held(s) == 0 && |s.telemetry.buckets| == |BOUNDARIES|
  {
    s := Next(cfg, Init(start), Arrive(false));
    assert [Arrive(false)][..0] == [];
    SumOfOne(s.requests, HoldTime(start));
  }

  lemma AloneToAnswer(cfg: Config, s: State) returns (s': State)
    requires |s.telemetry.buckets| == |BOUNDARIES| && |s.requests| == 1 && s.requests[0].phase == Entered
      && s.channel < cfg.capacity
    ensures s' == After(cfg, s, Alone(0, 12)) && |s'.requests| == 1 && s'.requests[0].phase == Answered
    ensures s'.clock == s.clock && Held(s') == Held(s)
  {
    AloneAdvances(cfg, s, 0, 12);
    AloneKeepsHeld(cfg, s, 0, 12);
    s' := After(cfg, s, Alone(0, 12));
    RankIsInjective(s'.requests[0].phase, Answered);
  }

  // A single request runs until its answer is settled; it holds its slot, and no
  // time has passed.
  lemma RunToAnswer(cfg: Config, start: int) returns (events: seq<Event>, s: State)
    requires cfg.capacity >= 1
    ensures s == After(cfg, Init(start), events) && |s.requests| == 1 && s.requests[0].phase == Answered
    ensures s.clock == start && Held(s) == 0
  {
    var arrived := OneArrival(cfg, start);
    s := AloneToAnswer(cfg, arrived);
    events := [Arrive(false)] + Alone(0, 12);
    AfterConcat(cfg, Init(start), [Arrive(false)], Alone(0, 12));
  }

  // It then waits for d with the slot held, computes what it held, and gives the
  // slot back.
  lemma WaitAndGiveBack(cfg: Config, s: State, d: nat) returns (s': State)
    requires |s.telemetry.buckets| == |BOUNDARIES|
    requires |s.requests| == 1 && s.requests[0].phase == Answered && Held(s) == 0
    ensures s' == After(cfg, After(cfg, s, [Tick(d)]), Alone(0, 2)) && s'.clock == s.clock + d
    ensures |s'.requests| == 1 && s'.requests[0].phase == Received && s'.requests[0].held == d
  {
    var ticked := After(cfg, s, [Tick(d)]);
    assert After(cfg, s, []) == s && ticked == Next(cfg, s, Tick(d));
    SumOfOne(s.requests, HoldTime(s.clock));
    SumOfOne(ticked.requests, HoldTime(ticked.clock));
    TwoMoreSteps(cfg, ticked);
    s' := After(cfg, ticked, Alone(0, 2));
    AloneKeepsHeld(cfg, ticked, 0, 2);
    SumOfOne(s'.requests, HoldTime(s'.clock));
  }

  lemma TwoMoreSteps(cfg: Config, s: State)
    requires |s.telemetry.buckets| == |BOUNDARIES| && |s.requests| == 1 && s.requests[0].phase == Answered
    ensures var s' := After(cfg, s, Alone(0, 2));
      |s'.requests| == 1 && s'.requests[0].phase == Received && s'.clock == s.clock
  {
    var e := Advance(0, false);
    assert Alone(0, 2)[..1] == [e] && [e][..0] == [];
    assert After(cfg, s, [e]) == Next(cfg, s, e);
    assert After(cfg, s, Alone(0, 2)) == Next(cfg, Next(cfg, s, e), e);
  }

  lemma NothingCredited(cfg: Config, s: State)
    requires Inv(cfg, s) && |s.requests| == 1 && s.requests[0].phase == Received
    ensures s.telemetry.slotTime == 0
  {
    SumOfOne(s.requests, SlotTimeOf);
  }

  // With one slot and any d: a run from the start after which a single further
  // step, taking no time, moves the counter from 0 to d.
  lemma CounterJumps(start: int, d: nat) returns (events: seq<Event>)
    ensures var cfg := Config(1, 0);
      var s := After(cfg, Init(start), events); var s' := After(cfg, Init(start), events + [Advance(0, false)]);
      && s'.clock == s.clock == start + d
      && s.telemetry.slotTime == 0 && s'.telemetry.slotTime == d
  {
    var cfg, s0, step := Config(1, 0), Init(start), [Advance(0, false)];
    var before, answered := RunToAnswer(cfg, start);
    InitInv(cfg, start);
    InvAlways(cfg, s0, before);
    var s := WaitAndGiveBack(cfg, answered, d);
    AfterConcat(cfg, s0, before, [Tick(d)]);
    AfterConcat(cfg, s0, before + [Tick(d)], Alone(0, 2));
    events := before + [Tick(d)] + Alone(0, 2);
    InvAlways(cfg, s0, events);
    NothingCredited(cfg, s);
    CreditComesAtOnce(cfg, s, 0, false);
    AfterConcat(cfg, s0, events, step);
    assert step[..0] == [] && After(cfg, s, step) == Next(cfg, s, step[0]);
  }
}
