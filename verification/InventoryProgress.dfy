// The inventory service cannot get stuck: from every reachable state its
// requests alone can all be brought to an end.
module InventoryProgress {
  import opened Counting
  import opened Inventory
  import opened InventoryProtocol

  function Remaining(): Request -> int {
    (r: Request) => Rank(Done) - Rank(r.phase)
  }

  function StepsLeft(s: State): int {
    Sum(s.requests, Remaining())
  }

  lemma StepsLeftNonnegative(s: State)
    ensures StepsLeft(s) >= 0
  {
    var zero := (r: Request) => 0;
    SumZero(s.requests, zero);
    SumAtMost(s.requests, zero, Remaining());
  }

  // A request that is not done can move, unless all such requests wait for the
  // channel; but then nobody occupies it.
  lemma SomebodyCanMove(capacity: nat, s: State) returns (k: nat)
    requires capacity >= 1 && s.channel == Sum(s.requests, Between(Sent, Answered)) && !AllDone(s.requests)
    ensures Enabled(capacity, s, k) && s.requests[k].phase != Done
  {
    if j: nat :| j < |s.requests| && s.requests[j].phase != Done && !s.requests[j].phase.Counted? {
      k := j;
    } else {
      var r :| r in s.requests && r.phase != Done;
      k :| k < |s.requests| && s.requests[k] == r;
      SumZero(s.requests, Between(Sent, Answered));
    }
  }

  lemma MovedFurther(r: Request, clock: int)
    requires r.phase != Done
    ensures Rank(Moved(r, clock, false).phase) > Rank(r.phase)
  {
  }

  lemma MoveTakesSteps(capacity: nat, s: State, k: nat)
    requires Shaped(s.telemetry) && Enabled(capacity, s, k) && s.requests[k].phase != Done
    ensures StepsLeft(Next(capacity, s, Advance(k, false))) < StepsLeft(s)
  {
    var r := s.requests[k];
    MovedFurther(r, s.clock);
    SumUpdate(s.requests, k, Moved(r, s.clock, false), Remaining());
  }

  lemma {:induction false} AfterConcat(capacity: nat, s: State, first: seq<Event>, second: seq<Event>)
    requires Shaped(s.telemetry)
    ensures After(capacity, s, first + second) == After(capacity, After(capacity, s, first), second)
  {
    if |second| == 0 {
      assert first + second == first;
    } else {
      var front := second[..|second| - 1];
      AfterConcat(capacity, s, first, front);
      assert (first + second)[..|first + second| - 1] == first + front;
    }
  }

  lemma {:induction false} CanFinish(capacity: nat, s: State) returns (events: seq<Event>)
    requires capacity >= 1 && Inv(capacity, s)
    ensures AllDone(After(capacity, s, events).requests) && |After(capacity, s, events).requests| == |s.requests|
    ensures forall e :: e in events ==> e.Advance?
    decreases StepsLeft(s)
  {
    StepsLeftNonnegative(s);
    if AllDone(s.requests) {
      events := [];
    } else {
      var k := SomebodyCanMove(capacity, s);
      var e := Advance(k, false);
      MoveTakesSteps(capacity, s, k);
      AdvanceInv(capacity, s, k, false);
      StepsLeftNonnegative(Next(capacity, s, e));
      var rest := CanFinish(capacity, Next(capacity, s, e));
      events := [e] + rest;
      assert [e][..0] == [] && After(capacity, s, [e]) == Next(capacity, s, e);
      AfterConcat(capacity, s, [e], rest);
    }
  }

  // From any state any run can reach, with at least one slot, the requests that
  // have come can all be finished; everything is then quiet.
  lemma EveryRunCanComeToRest(capacity: nat, start: int, events: seq<Event>) returns (more: seq<Event>)
    requires capacity >= 1
    ensures var s := After(capacity, Init(start), events + more); var t := s.telemetry;
      && AllDone(s.requests) && s.channel == 0 && t.active == 0 && t.activeWork == 0 && t.dbActive == 0
      && t.http.requests == |After(capacity, Init(start), events).requests|
  {
    InvAlways(capacity, start, events);
    more := CanFinish(capacity, After(capacity, Init(start), events));
    AfterConcat(capacity, Init(start), events, more);
    Quiescence(capacity, start, events + more);
  }
}
