// No deadlock and no leaked slot: from every reachable state the requests alone
// can all be brought to an end.
module DemoProgress {
  import opened Counting
  import opened DemoApp
  import opened DemoProtocol
  import opened DemoLaws

  // Steps a request has still to take.
  function RemainingOf(r: Request): int {
    Rank(Done) - Rank(r.phase)
  }

  function Remaining(): Request -> int {
    (r: Request) => RemainingOf(r)
  }

  function StepsLeft(s: State): int {
    Sum(s.requests, Remaining())
  }

  lemma StepsLeftNonnegative(s: State)
    ensures StepsLeft(s) >= 0
  {
    SumNonnegative(s.requests, Remaining());
  }

  // A request that is not done can move, unless all such requests wait for the
  // channel; but then nobody occupies it.
  lemma SomebodyCanMove(cfg: Config, s: State) returns (k: nat)
    requires cfg.capacity >= 1 && s.channel == Sum(s.requests, Occupying()) && !AllDone(s)
    ensures Enabled(cfg, s, k) && s.requests[k].phase != Done
  {
    if j: nat :| j < |s.requests| && s.requests[j].phase != Done && !s.requests[j].phase.Queued? {
      k := j;
    } else {
      var r :| r in s.requests && r.phase != Done;
      k :| k < |s.requests| && s.requests[k] == r;
      SumZero(s.requests, Occupying());
    }
  }

  // A send goes through exactly while fewer than `capacity` requests are between
  // their send and their receive.
  lemma SendBlocksIffFull(cfg: Config, start: int, events: seq<Event>, k: nat)
    requires var s := After(cfg, Init(start), events); k < |s.requests| && s.requests[k].phase.Queued?
    ensures var s := After(cfg, Init(start), events); var s' := Next(cfg, s, Advance(k, false));
      && (s' != s <==> Sum(s.requests, Occupying()) < cfg.capacity)
      && (s' != s ==> s'.channel == s.channel + 1)
  {
    InitInv(cfg, start);
    InvAlways(cfg, Init(start), events);
  }

  lemma MoveTakesOneStep(cfg: Config, s: State, k: nat)
    requires |s.telemetry.buckets| == |BOUNDARIES| && Enabled(cfg, s, k) && s.requests[k].phase != Done
    ensures StepsLeft(Next(cfg, s, Advance(k, false))) == StepsLeft(s) - 1
  {
    var r := s.requests[k];
    MovedRank(r, s.clock, cfg.work);
    SumUpdate(s.requests, k, Moved(r, s.clock, cfg.work, false), Remaining());
  }

  // Some sequence of requests' own steps leads to rest.
  lemma {:induction false} CanFinish(cfg: Config, s: State) returns (events: seq<Event>)
    requires cfg.capacity >= 1 && Inv(cfg, s)
    ensures AllDone(After(cfg, s, events)) && |After(cfg, s, events).requests| == |s.requests|
    ensures |events| == StepsLeft(s) && forall e :: e in events ==> e.Advance?
    decreases StepsLeft(s)
  {
    StepsLeftNonnegative(s);
    if AllDone(s) {
      events := [];
      SumZero(s.requests, Remaining());
    } else {
      var k := SomebodyCanMove(cfg, s);
      MoveTakesOneStep(cfg, s, k);
      var e := Advance(k, false);
      NextInv(cfg, s, e);
      StepsLeftNonnegative(Next(cfg, s, e));
      var rest := CanFinish(cfg, Next(cfg, s, e));
      events := [e] + rest;
      assert [e][..0] == [] && After(cfg, s, [e]) == Next(cfg, s, e);
      AfterConcat(cfg, s, [e], rest);
    }
  }

  // From any state any run can reach, with at least one slot, the requests that
  // have come can all be finished; everything is then quiet.
  lemma EveryRunCanComeToRest(cfg: Config, start: int, events: seq<Event>) returns (more: seq<Event>)
    requires cfg.capacity >= 1
    ensures var s := After(cfg, Init(start), events + more);
      && AllDone(s) && s.channel == 0 && s.telemetry.slotsInUse == 0 && s.telemetry.active == 0
      && s.telemetry.requests == |After(cfg, Init(start), events).requests|
  {
    var s := After(cfg, Init(start), events);
    InitInv(cfg, start);
    InvAlways(cfg, Init(start), events);
    more := CanFinish(cfg, s);
    AfterConcat(cfg, Init(start), events, more);
    Quiescence(cfg, start, events + more);
  }
}
