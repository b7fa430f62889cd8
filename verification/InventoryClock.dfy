// What the durations of the inventory service measure, and why a request failed,
// traced to the steps of the run.
module InventoryClock {
  import opened Counting
  import opened Inventory
  import opened InventoryProtocol

  function StateAfter(capacity: nat, start: int, events: seq<Event>): State {
    After(capacity, Init(start), events)
  }

  predicate Reached(r: Request, p: Phase) {
    Rank(p) <= Rank(r.phase)
  }

  predicate HasReached(s: State, k: nat, p: Phase) {
    k < |s.requests| && Reached(s.requests[k], p)
  }

  // The clock when request k first reached phase p (the clock now, if it has not).
  function ReachedAt(capacity: nat, start: int, events: seq<Event>, k: nat, p: Phase): int {
    if |events| > 0 && HasReached(StateAfter(capacity, start, events[..|events| - 1]), k, p)
    then ReachedAt(capacity, start, events[..|events| - 1], k, p)
    else StateAfter(capacity, start, events).clock
  }

  function Times(capacity: nat, start: int, events: seq<Event>, k: nat): Phase -> int {
    (p: Phase) => ReachedAt(capacity, start, events, k, p)
  }

  lemma StepKeepsOthers(capacity: nat, s: State, e: Event, k: nat)
    requires Shaped(s.telemetry) && k < |s.requests|
    ensures var s' := Next(capacity, s, e);
      && |s.requests| <= |s'.requests|
      && (s'.requests[k] == s.requests[k]
          || (e.Advance? && e.k == k && s'.clock == s.clock
              && s'.requests[k] == Moved(s.requests[k], s.clock, e.fails)))
  {
  }

  lemma NewRequest(capacity: nat, s: State, e: Event, k: nat)
    requires Shaped(s.telemetry) && |s.requests| <= k < |Next(capacity, s, e).requests|
    ensures e.Arrive? && Next(capacity, s, e).clock == s.clock
    ensures Next(capacity, s, e).requests[k] == Arrival(s.clock)
  {
  }

  // ----- Durations -----

  // The duration of a request runs from its arrival, that of its database call
  // from the call; a canceled request makes none.
  predicate Measures(r: Request, at: Phase -> int) {
    && r.started == at(Entered)
    && (Reached(r, DBTimed) && !r.canceled ==> r.dbStarted == at(DBTimed))
    && (Reached(r, DBMeasured) && !r.canceled ==> r.dbDuration == at(DBMeasured) - at(DBTimed))
    && (Reached(r, DurationKnown) ==> r.duration == at(DurationKnown) - at(Entered))
    && at(Entered) <= at(DBTimed) <= at(DBMeasured) <= at(DurationKnown)
  }

  // One event later: old times stay, new ones are the clock now.
  predicate Later(r: Request, at: Phase -> int, at': Phase -> int, clock: int) {
    forall p :: at'(p) == if Reached(r, p) then at(p) else clock
  }

  lemma MeasuresStep(r: Request, at: Phase -> int, at': Phase -> int, clock: int, fails: bool)
    requires Measures(r, at) && Later(r, at, at', clock) && Settled(r) && forall p :: at(p) <= clock
    ensures Measures(Moved(r, clock, fails), at')
  {
  }

  lemma MeasuresKept(r: Request, at: Phase -> int, at': Phase -> int, clock: int)
    requires Measures(r, at) && Later(r, at, at', clock) && forall p :: at(p) <= clock
    ensures Measures(r, at')
  {
  }

  lemma MeasuresNext(capacity: nat, s: State, e: Event, k: nat, at: Phase -> int, at': Phase -> int)
    requires Shaped(s.telemetry) && k < |s.requests| && Settled(s.requests[k])
    requires Measures(s.requests[k], at) && Later(s.requests[k], at, at', Next(capacity, s, e).clock)
    requires forall p :: at(p) <= Next(capacity, s, e).clock
    ensures k < |Next(capacity, s, e).requests| && Measures(Next(capacity, s, e).requests[k], at')
  {
    StepKeepsOthers(capacity, s, e, k);
    if Next(capacity, s, e).requests[k] == s.requests[k] {
      MeasuresKept(s.requests[k], at, at', Next(capacity, s, e).clock);
    } else {
      MeasuresStep(s.requests[k], at, at', s.clock, e.fails);
    }
  }

  lemma {:induction false} TimesArePast(capacity: nat, start: int, events: seq<Event>, k: nat, p: Phase)
    ensures ReachedAt(capacity, start, events, k, p) <= StateAfter(capacity, start, events).clock
  {
    if |events| > 0 {
      TimesArePast(capacity, start, events[..|events| - 1], k, p);
      ClockGoesOn(capacity, StateAfter(capacity, start, events[..|events| - 1]), events[|events| - 1]);
    }
  }

  lemma ClockGoesOn(capacity: nat, s: State, e: Event)
    requires Shaped(s.telemetry)
    ensures s.clock <= Next(capacity, s, e).clock
  {
  }

  lemma TimesGoOn(capacity: nat, start: int, events: seq<Event>, k: nat, r: Request)
    requires |events| > 0
    requires var s := StateAfter(capacity, start, events[..|events| - 1]); k < |s.requests| && r == s.requests[k]
    ensures Later(r, Times(capacity, start, events[..|events| - 1], k), Times(capacity, start, events, k),
      StateAfter(capacity, start, events).clock)
  {
  }

  lemma MeasuresOnArrival(at: Phase -> int, clock: int)
    requires forall p :: at(p) == clock
    ensures Measures(Arrival(clock), at)
  {
  }

  lemma FirstTimes(capacity: nat, start: int, events: seq<Event>, k: nat)
    requires |events| > 0 && |StateAfter(capacity, start, events[..|events| - 1]).requests| <= k
    ensures forall p :: Times(capacity, start, events, k)(p) == StateAfter(capacity, start, events).clock
  {
  }

  // In every run the recorded durations are differences of the clock between the
  // steps they are named after, and a request takes as long as its database call.
  lemma {:induction false} DurationsMeasure(capacity: nat, start: int, events: seq<Event>, k: nat)
    requires k < |StateAfter(capacity, start, events).requests|
    ensures Measures(StateAfter(capacity, start, events).requests[k], Times(capacity, start, events, k))
  {
    if |events| > 0 {
      var front := events[..|events| - 1];
      var before, now := StateAfter(capacity, start, front), StateAfter(capacity, start, events);
      var e := events[|events| - 1];
      assert now == Next(capacity, before, e);
      if k < |before.requests| {
        DurationsMeasure(capacity, start, front, k);
        EarlierTimes(capacity, start, front, k, e);
        SettledInRun(capacity, start, front, k);
        TimesGoOn(capacity, start, events, k, before.requests[k]);
        MeasuresNext(capacity, before, e, k, Times(capacity, start, front, k), Times(capacity, start, events, k));
      } else {
        NewRequest(capacity, before, e, k);
        FirstTimes(capacity, start, events, k);
        MeasuresOnArrival(Times(capacity, start, events, k), now.clock);
      }
    }
  }

  lemma EarlierTimes(capacity: nat, start: int, front: seq<Event>, k: nat, e: Event)
    ensures var now := Next(capacity, StateAfter(capacity, start, front), e).clock;
      forall p :: Times(capacity, start, front, k)(p) <= now
  {
    ClockGoesOn(capacity, StateAfter(capacity, start, front), e);
    forall p
      ensures Times(capacity, start, front, k)(p) <= StateAfter(capacity, start, front).clock
    {
      TimesArePast(capacity, start, front, k, p);
    }
  }

  lemma SettledInRun(capacity: nat, start: int, events: seq<Event>, k: nat)
    requires k < |StateAfter(capacity, start, events).requests|
    ensures Settled(StateAfter(capacity, start, events).requests[k])
  {
    InvAlways(capacity, start, events);
    assert StateAfter(capacity, start, events).requests[k] in StateAfter(capacity, start, events).requests;
  }

  function TookOf(r: Request): int { r.duration }
  function QueryTookOf(r: Request): int { if r.canceled then 0 else r.dbDuration }

  lemma DoneDurations(r: Request, at: Phase -> int)
    requires r.phase == Done && Settled(r) && Measures(r, at)
    ensures DurationOf(r) == TookOf(r) && QueryDurationOf(r) == QueryTookOf(r) <= TookOf(r)
  {
  }

  // At rest the duration sums are those of all requests and of all queries made,
  // and the requests together took at least as long as their queries.
  lemma DurationTotals(capacity: nat, start: int, events: seq<Event>)
    requires AllDone(StateAfter(capacity, start, events).requests)
    ensures var s := StateAfter(capacity, start, events);
      && s.telemetry.http.durationTime == Sum(s.requests, TookOf)
      && s.telemetry.db.durationTime == Sum(s.requests, QueryTookOf) <= s.telemetry.http.durationTime
  {
    InvAlways(capacity, start, events);
    var rs := StateAfter(capacity, start, events).requests;
    forall r | r in rs
      ensures DurationOf(r) == TookOf(r) && QueryDurationOf(r) == QueryTookOf(r) <= TookOf(r)
    {
      var k :| 0 <= k < |rs| && rs[k] == r;
      DurationsMeasure(capacity, start, events, k);
      SettledInRun(capacity, start, events, k);
      DoneDurations(r, Times(capacity, start, events, k));
    }
    SumSame(rs, DurationOf, TookOf);
    SumSame(rs, QueryDurationOf, QueryTookOf);
    SumAtMost(rs, QueryTookOf, TookOf);
  }

  // ----- Why a request failed -----

  // What has been settled so far, by the steps at which it was.
  predicate Explained(r: Request, fails: Phase -> bool) {
    && (r.canceled <==> Reached(r, Worked) && fails(Worked))
    && (r.dbFailed <==> Reached(r, DBAnswered) && !r.canceled && fails(DBAnswered))
    && (r.failed <==> Reached(r, Answered) && (r.canceled || r.dbFailed || fails(Answered)))
  }

  // Whether the step that took request k to phase p went wrong.
  function WentWrong(capacity: nat, start: int, events: seq<Event>, k: nat, p: Phase): bool {
    if |events| == 0 then false
    else if HasReached(StateAfter(capacity, start, events[..|events| - 1]), k, p)
    then WentWrong(capacity, start, events[..|events| - 1], k, p)
    else events[|events| - 1].Advance? && events[|events| - 1].fails
  }

  function Wrongs(capacity: nat, start: int, events: seq<Event>, k: nat): Phase -> bool {
    (p: Phase) => WentWrong(capacity, start, events, k, p)
  }

  predicate LaterWrong(r: Request, wrong: Phase -> bool, wrong': Phase -> bool, fails: bool) {
    forall p :: wrong'(p) == if Reached(r, p) then wrong(p) else fails
  }

  lemma ExplainedStep(r: Request, wrong: Phase -> bool, wrong': Phase -> bool, clock: int, fails: bool)
    requires Explained(r, wrong) && LaterWrong(r, wrong, wrong', fails) && Settled(r)
    ensures Explained(Moved(r, clock, fails), wrong')
  {
  }

  lemma ExplainedNext(capacity: nat, s: State, e: Event, k: nat, wrong: Phase -> bool, wrong': Phase -> bool)
    requires Shaped(s.telemetry) && k < |s.requests| && Settled(s.requests[k]) && Explained(s.requests[k], wrong)
    requires LaterWrong(s.requests[k], wrong, wrong', e.Advance? && e.fails)
    ensures k < |Next(capacity, s, e).requests| && Explained(Next(capacity, s, e).requests[k], wrong')
  {
    StepKeepsOthers(capacity, s, e, k);
    if Next(capacity, s, e).requests[k] != s.requests[k] {
      ExplainedStep(s.requests[k], wrong, wrong', s.clock, e.fails);
    }
  }

  lemma WrongsGoOn(capacity: nat, start: int, events: seq<Event>, k: nat, r: Request)
    requires |events| > 0
    requires var s := StateAfter(capacity, start, events[..|events| - 1]); k < |s.requests| && r == s.requests[k]
    ensures var e := events[|events| - 1];
      LaterWrong(r, Wrongs(capacity, start, events[..|events| - 1], k), Wrongs(capacity, start, events, k),
        e.Advance? && e.fails)
  {
  }

  lemma ExplainedOnArrival(clock: int, wrong: Phase -> bool)
    ensures Explained(Arrival(clock), wrong)
  {
  }

  // In every run: a request is canceled exactly if its work was, its query failed
  // exactly if it was made and went wrong, and it fails exactly if it was
  // canceled, its query failed, or its answer could not be written.
  lemma {:induction false} FailureHasCause(capacity: nat, start: int, events: seq<Event>, k: nat)
    requires k < |StateAfter(capacity, start, events).requests|
    ensures Explained(StateAfter(capacity, start, events).requests[k], Wrongs(capacity, start, events, k))
  {
    if |events| > 0 {
      var front := events[..|events| - 1];
      var before, e := StateAfter(capacity, start, front), events[|events| - 1];
      assert StateAfter(capacity, start, events) == Next(capacity, before, e);
      if k < |before.requests| {
        FailureHasCause(capacity, start, front, k);
        SettledInRun(capacity, start, front, k);
        WrongsGoOn(capacity, start, events, k, before.requests[k]);
        ExplainedNext(capacity, before, e, k, Wrongs(capacity, start, front, k), Wrongs(capacity, start, events, k));
      } else {
        NewRequest(capacity, before, e, k);
        ExplainedOnArrival(before.clock, Wrongs(capacity, start, events, k));
      }
    }
  }
}
