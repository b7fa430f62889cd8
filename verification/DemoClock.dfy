// What the numbers of a request measure: every reading and every duration, traced
// to the steps of the run at which the clock was read.
module DemoClock {
  import opened DemoApp
  import opened DemoProtocol
  import opened DemoLaws

  function StateAfter(cfg: Config, start: int, events: seq<Event>): State {
    After(cfg, Init(start), events)
  }

  predicate HasReached(s: State, k: nat, p: Phase) {
    k < |s.requests| && Reached(s.requests[k], p)
  }

  // The clock when request k first reached phase p (the clock now, if it has not).
  function ReachedAt(cfg: Config, start: int, events: seq<Event>, k: nat, p: Phase): int {
    if |events| > 0 && HasReached(StateAfter(cfg, start, events[..|events| - 1]), k, p)
    then ReachedAt(cfg, start, events[..|events| - 1], k, p)
    else StateAfter(cfg, start, events).clock
  }

  // Event i is the one that took request k to phase p, by the clock that says so.
  predicate TakesTo(cfg: Config, start: int, events: seq<Event>, k: nat, p: Phase, i: nat) {
    && i < |events|
    && !HasReached(StateAfter(cfg, start, events[..i]), k, p)
    && HasReached(StateAfter(cfg, start, events[..i + 1]), k, p)
    && ReachedAt(cfg, start, events, k, p) == StateAfter(cfg, start, events[..i]).clock
  }

  lemma StepKeepsOthers(cfg: Config, s: State, e: Event, k: nat)
    requires |s.telemetry.buckets| == |BOUNDARIES| && k < |s.requests|
    ensures var s' := Next(cfg, s, e);
      && |s.requests| <= |s'.requests|
      && (s'.requests[k] == s.requests[k]
          || (e.Advance? && e.k == k && s'.clock == s.clock
              && s'.requests[k] == Moved(s.requests[k], s.clock, cfg.work, e.fails)))
  {
  }

  lemma NewRequest(cfg: Config, s: State, e: Event, k: nat)
    requires |s.telemetry.buckets| == |BOUNDARIES| && |s.requests| <= k < |Next(cfg, s, e).requests|
    ensures e.Arrive? && Next(cfg, s, e).clock == s.clock
    ensures Next(cfg, s, e).requests[k] == Arrival(s.clock, e.failed)
  {
  }

  // Each step leads to the next phase.
  lemma NextPhase(r: Request, clock: int, work: int, fails: bool)
    ensures r.phase != Done ==> Rank(Moved(r, clock, work, fails).phase) == Rank(r.phase) + 1
    ensures r.phase == Done ==> Moved(r, clock, work, fails) == r
  {
  }

  lemma ReachingTakesNoTime(cfg: Config, s: State, e: Event, k: nat, p: Phase)
    requires |s.telemetry.buckets| == |BOUNDARIES| && !HasReached(s, k, p) && HasReached(Next(cfg, s, e), k, p)
    ensures Next(cfg, s, e).clock == s.clock
  {
    if k < |s.requests| {
      StepKeepsOthers(cfg, s, e, k);
    } else {
      NewRequest(cfg, s, e, k);
    }
  }

  lemma TakesToStill(cfg: Config, start: int, events: seq<Event>, k: nat, p: Phase, i: nat)
    requires |events| > 0 && TakesTo(cfg, start, events[..|events| - 1], k, p, i)
    requires HasReached(StateAfter(cfg, start, events[..|events| - 1]), k, p)
    ensures TakesTo(cfg, start, events, k, p, i)
  {
    var front := events[..|events| - 1];
    assert front[..i] == events[..i] && front[..i + 1] == events[..i + 1];
  }

  lemma TakesToNow(cfg: Config, start: int, events: seq<Event>, k: nat, p: Phase)
    requires |events| > 0 && HasReached(StateAfter(cfg, start, events), k, p)
    requires !HasReached(StateAfter(cfg, start, events[..|events| - 1]), k, p)
    ensures TakesTo(cfg, start, events, k, p, |events| - 1)
  {
    assert events[..|events|] == events;
    var before, e := StateAfter(cfg, start, events[..|events| - 1]), events[|events| - 1];
    assert StateAfter(cfg, start, events) == Next(cfg, before, e);
    ReachingTakesNoTime(cfg, before, e, k, p);
  }

  // Whatever phase a request has reached, some event of the run took it there.
  lemma {:induction false} SomeEventTook(cfg: Config, start: int, events: seq<Event>, k: nat, p: Phase)
    returns (i: nat)
    requires HasReached(StateAfter(cfg, start, events), k, p)
    ensures TakesTo(cfg, start, events, k, p, i)
  {
    var front := events[..|events| - 1];
    if HasReached(StateAfter(cfg, start, front), k, p) {
      i := SomeEventTook(cfg, start, front, k, p);
      TakesToStill(cfg, start, events, k, p, i);
    } else {
      i := |events| - 1;
      TakesToNow(cfg, start, events, k, p);
    }
  }

  // ----- What was read and computed -----

  // Every number of a request, from the clock at the steps named after it.
  predicate Measures(r: Request, at: Phase -> int, work: int) {
    && r.started == at(Entered)
    && (Reached(r, Queued) ==> r.queueStarted == at(Queued))
    && (Reached(r, WaitKnown) ==> r.queueWait == at(WaitKnown) - at(Queued))
    && (Reached(r, SlotTimed) ==> r.slotStarted == at(SlotTimed))
    && (Reached(r, WorkTimed) ==> r.workStarted == at(WorkTimed))
    && (Reached(r, WorkKnown) ==> r.workTime == if work <= 0 then 0 else at(WorkKnown) - at(WorkTimed))
    && (Reached(r, HeldKnown) ==> r.held == at(HeldKnown) - at(SlotTimed))
    && (Reached(r, DurationKnown) ==> r.duration == at(DurationKnown) - at(Entered))
  }

  // The times of request k in a run.
  function Times(cfg: Config, start: int, events: seq<Event>, k: nat): Phase -> int {
    (p: Phase) => ReachedAt(cfg, start, events, k, p)
  }

  // One event later: old times stay, new ones are the clock now.
  predicate Later(r: Request, at: Phase -> int, at': Phase -> int, clock: int) {
    forall p :: at'(p) == if Reached(r, p) then at(p) else clock
  }

  lemma MeasuresStep(r: Request, at: Phase -> int, at': Phase -> int, clock: int, work: int, fails: bool)
    requires Measures(r, at, work) && Later(r, at, at', clock)
    ensures Measures(Moved(r, clock, work, fails), at', work)
  {
  }

  lemma TimesGoOn(cfg: Config, start: int, events: seq<Event>, k: nat, r: Request)
    requires |events| > 0
    requires var s := StateAfter(cfg, start, events[..|events| - 1]); k < |s.requests| && r == s.requests[k]
    ensures Later(r, Times(cfg, start, events[..|events| - 1], k), Times(cfg, start, events, k),
      StateAfter(cfg, start, events).clock)
  {
  }

  lemma MeasuresKept(r: Request, at: Phase -> int, at': Phase -> int, clock: int, work: int)
    requires Measures(r, at, work) && Later(r, at, at', clock)
    ensures Measures(r, at', work)
  {
  }

  lemma MeasuresOnArrival(at: Phase -> int, clock: int, failed: bool, work: int)
    requires at(Entered) == clock
    ensures Measures(Arrival(clock, failed), at, work)
  {
  }

  lemma MeasuresNext(cfg: Config, s: State, e: Event, k: nat, at: Phase -> int, at': Phase -> int)
    requires |s.telemetry.buckets| == |BOUNDARIES| && k < |s.requests|
    requires Measures(s.requests[k], at, cfg.work) && Later(s.requests[k], at, at', Next(cfg, s, e).clock)
    ensures k < |Next(cfg, s, e).requests| && Measures(Next(cfg, s, e).requests[k], at', cfg.work)
  {
    StepKeepsOthers(cfg, s, e, k);
    if Next(cfg, s, e).requests[k] == s.requests[k] {
      MeasuresKept(s.requests[k], at, at', Next(cfg, s, e).clock, cfg.work);
    } else {
      MeasuresStep(s.requests[k], at, at', s.clock, cfg.work, e.fails);
    }
  }

  // In every run: queueWait is the time from reading its start to the semaphore
  // send, held the time from the slot to its end, and so on; the duration runs
  // from the arrival of the request to its own measurement, queueing included.
  lemma {:induction false} NumbersMeasure(cfg: Config, start: int, events: seq<Event>, k: nat)
    requires k < |StateAfter(cfg, start, events).requests|
    ensures Measures(StateAfter(cfg, start, events).requests[k], Times(cfg, start, events, k), cfg.work)
  {
    if |events| > 0 {
      var front := events[..|events| - 1];
      var before, now, e := StateAfter(cfg, start, front), StateAfter(cfg, start, events), events[|events| - 1];
      assert now == Next(cfg, before, e);
      var at := Times(cfg, start, events, k);
      if k < |before.requests| {
        NumbersMeasure(cfg, start, front, k);
        TimesGoOn(cfg, start, events, k, before.requests[k]);
        MeasuresNext(cfg, before, e, k, Times(cfg, start, front, k), at);
      } else {
        NewRequest(cfg, before, e, k);
        MeasuresOnArrival(at, now.clock, e.failed, cfg.work);
      }
    }
  }
  // ----- Why a request failed -----

  lemma FailureStep(r: Request, clock: int, work: int, fails: bool)
    ensures var r' := Moved(r, clock, work, fails);
      r'.failed == (r.failed || (fails && Reached(r', Answered) && !Reached(r, Answered)))
  {
  }

  lemma FailureNext(cfg: Config, s: State, e: Event, k: nat)
    requires |s.telemetry.buckets| == |BOUNDARIES| && k < |s.requests| && k < |Next(cfg, s, e).requests|
    ensures var r, r' := s.requests[k], Next(cfg, s, e).requests[k];
      && (Reached(r, Answered) || !Reached(r', Answered) ==> r'.failed == r.failed)
      && (!Reached(r, Answered) && Reached(r', Answered) ==> e.Advance? && r'.failed == (r.failed || e.fails))
      && (Reached(r, Answered) ==> Reached(r', Answered))
  {
    StepKeepsOthers(cfg, s, e, k);
    if e.Advance? {
      FailureStep(s.requests[k], s.clock, cfg.work, e.fails);
      NextPhase(s.requests[k], s.clock, cfg.work, e.fails);
    }
  }

  // Until it is answered a request fails only if it came as a failing one.
  lemma {:induction false} CameFailing(cfg: Config, start: int, events: seq<Event>, k: nat) returns (i: nat)
    requires k < |StateAfter(cfg, start, events).requests|
    ensures TakesTo(cfg, start, events, k, Entered, i) && events[i].Arrive?
    ensures var r := StateAfter(cfg, start, events).requests[k]; !Reached(r, Answered) ==> r.failed == events[i].failed
  {
    var front := events[..|events| - 1];
    var before, e := StateAfter(cfg, start, front), events[|events| - 1];
    if k < |before.requests| {
      i := CameFailing(cfg, start, front, k);
      TakesToStill(cfg, start, events, k, Entered, i);
      FailureNext(cfg, before, e, k);
    } else {
      i := |events| - 1;
      NewRequest(cfg, before, e, k);
      TakesToNow(cfg, start, events, k, Entered);
    }
  }

  // A request fails exactly if it came as an intentional failure, or the call to
  // the inventory, settled at the step that answered it, went wrong.
  lemma {:induction false} FailureHasCause(cfg: Config, start: int, events: seq<Event>, k: nat)
    returns (i: nat, j: nat)
    requires HasReached(StateAfter(cfg, start, events), k, Answered)
    ensures TakesTo(cfg, start, events, k, Entered, i) && TakesTo(cfg, start, events, k, Answered, j)
    ensures events[i].Arrive? && events[j].Advance?
    ensures StateAfter(cfg, start, events).requests[k].failed <==> events[i].failed || events[j].fails
  {
    var front := events[..|events| - 1];
    var before, e := StateAfter(cfg, start, front), events[|events| - 1];
    if k < |before.requests| {
      FailureNext(cfg, before, e, k);
      if HasReached(before, k, Answered) {
        i, j := FailureHasCause(cfg, start, front, k);
        TakesToStill(cfg, start, events, k, Answered, j);
      } else {
        i := CameFailing(cfg, start, front, k);
        j := |events| - 1;
        TakesToNow(cfg, start, events, k, Answered);
      }
      TakesToStill(cfg, start, events, k, Entered, i);
    } else {
      NewRequest(cfg, before, e, k);
    }
  }
}
