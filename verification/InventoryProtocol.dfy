// server.inventory as interleaved atomic steps, and what every interleaving of
// its requests keeps (cmd/inventory-service/main.go).
module InventoryProtocol {
  import opened Counting
  import opened Inventory

  datatype Phase =
    | Entered        // started has been read
    | Counted        // begin()
    | Sent           // s.concurrency <- struct{}{}
    | Working        // beginWork()
    | Worked         // endWork(), after the timer or a cancellation
    | DBTimed        // the start of the database call has been read
    | DBActive       // beginDB()
    | DBAnswered     // the query has succeeded or failed
    | DBMeasured     // its duration has been computed
    | DBRecorded     // observeDB(duration, failed)
    | Answered       // success or failure is settled
    | Received       // <-s.concurrency
    | DurationKnown  // the request duration has been computed
    | Done           // observe(duration, failed)

  function Rank(p: Phase): nat {
    match p
    case Entered => 0
    case Counted => 1
    case Sent => 2
    case Working => 3
    case Worked => 4
    case DBTimed => 5
    case DBActive => 6
    case DBAnswered => 7
    case DBMeasured => 8
    case DBRecorded => 9
    case Answered => 10
    case Received => 11
    case DurationKnown => 12
    case Done => 13
  }

  datatype Request = Request(phase: Phase, canceled: bool, dbFailed: bool, failed: bool, started: int, dbStarted: int,
    dbDuration: int, duration: int)

  datatype State = State(clock: int, channel: int, telemetry: Counters, requests: seq<Request>)

  function Init(clock: int): State {
    State(clock, 0, NoCounts(), [])
  }

  function Arrival(clock: int): Request {
    Request(Entered, false, false, false, clock, 0, 0, 0)
  }

  // The next step of a request. `fails` settles what its surroundings decide: a
  // cancellation during the work, a failing query, a failing answer.
  function Moved(r: Request, clock: int, fails: bool): Request {
    match r.phase
    case Entered => r.(phase := Counted)
    case Counted => r.(phase := Sent)
    case Sent => r.(phase := Working)
    case Working => r.(phase := Worked, canceled := fails)
    case Worked => if r.canceled then r.(phase := Answered, failed := true)
      else r.(phase := DBTimed, dbStarted := clock)
    case DBTimed => r.(phase := DBActive)
    case DBActive => r.(phase := DBAnswered, dbFailed := fails)
    case DBAnswered => r.(phase := DBMeasured, dbDuration := clock - r.dbStarted)
    case DBMeasured => r.(phase := DBRecorded)
    case DBRecorded => r.(phase := Answered, failed := r.dbFailed || fails)
    case Answered => r.(phase := Received)
    case Received => r.(phase := DurationKnown, duration := clock - r.started)
    case DurationKnown => r.(phase := Done)
    case Done => r
  }

  function Told(c: Counters, r: Request): Counters
    requires Shaped(c)
  {
    match r.phase
    case Entered => c.(active := c.active + 1)
    case Sent => c.(activeWork := c.activeWork + 1)
    case Working => c.(activeWork := c.activeWork - 1)
    case DBTimed => c.(dbActive := c.dbActive + 1)
    case DBMeasured => c.(dbActive := c.dbActive - 1, db := Tallied(c.db, r.dbDuration, r.dbFailed))
    case DurationKnown => c.(active := c.active - 1, http := Tallied(c.http, r.duration, r.failed))
    case _ => c
  }

  function ChannelChange(r: Request): int {
    match r.phase
    case Counted => 1
    case Answered => -1
    case _ => 0
  }

  datatype Event = Arrive | Tick(d: nat) | Advance(k: nat, fails: bool)

  predicate Enabled(capacity: nat, s: State, k: nat) {
    k < |s.requests| && (s.requests[k].phase.Counted? ==> s.channel < capacity)
  }

  // Impossible events leave the state as it is.
  function Next(capacity: nat, s: State, e: Event): State
    requires Shaped(s.telemetry)
  {
    match e
    case Arrive => s.(requests := s.requests + [Arrival(s.clock)])
    case Tick(d) => s.(clock := s.clock + d)
    case Advance(k, fails) =>
      if !Enabled(capacity, s, k) then s
      else
        var r := s.requests[k];
        State(s.clock, s.channel + ChannelChange(r), Told(s.telemetry, r), s.requests[k := Moved(r, s.clock, fails)])
  }

  function After(capacity: nat, s: State, events: seq<Event>): State
    requires Shaped(s.telemetry)
    ensures Shaped(After(capacity, s, events).telemetry)
  {
    if |events| == 0 then s
    else Next(capacity, After(capacity, s, events[..|events| - 1]), events[|events| - 1])
  }

  // The telemetry object does what the protocol says of its numbers.
  method Tell(t: Telemetry, r: Request)
    requires t.Valid()
    modifies t, t.buckets, t.dbBuckets
    ensures t.View() == Told(old(t.View()), r)
  {
    match r.phase
    case Entered => t.Begin();
    case Sent => t.BeginWork();
    case Working => t.EndWork();
    case DBTimed => t.BeginDB();
    case DBMeasured => t.ObserveDB(r.dbDuration, r.dbFailed);
    case DurationKnown => t.Observe(r.duration, r.failed);
    case _ =>
  }

  // ----- What a request contributes to each number -----

  function InPhases(r: Request, lo: Phase, hi: Phase): int {
    if Rank(lo) <= Rank(r.phase) <= Rank(hi) then 1 else 0
  }

  function Between(lo: Phase, hi: Phase): Request -> int {
    (r: Request) => InPhases(r, lo, hi)
  }

  // Has been recorded by observe, or by observeDB.
  predicate Recorded(r: Request) { r.phase == Done }
  predicate QueryRecorded(r: Request) { Rank(r.phase) >= Rank(DBRecorded) && !r.canceled }

  function RecordedOf(r: Request): int { if Recorded(r) then 1 else 0 }
  function ErrorOf(r: Request): int { if Recorded(r) && r.failed then 1 else 0 }
  function DurationOf(r: Request): int { if Recorded(r) then r.duration else 0 }
  function WithinOf(r: Request, boundary: int): int { if Recorded(r) && r.duration <= boundary then 1 else 0 }
  function QueryOf(r: Request): int { if QueryRecorded(r) then 1 else 0 }
  function QueryErrorOf(r: Request): int { if QueryRecorded(r) && r.dbFailed then 1 else 0 }
  function QueryDurationOf(r: Request): int { if QueryRecorded(r) then r.dbDuration else 0 }
  function QueryWithinOf(r: Request, boundary: int): int {
    if QueryRecorded(r) && r.dbDuration <= boundary then 1 else 0
  }

  function Within(boundary: int): Request -> int { (r: Request) => WithinOf(r, boundary) }
  function QueryWithin(boundary: int): Request -> int { (r: Request) => QueryWithinOf(r, boundary) }

  // Only requests past their work are canceled, and canceled or failed queries
  // end as failed requests.
  predicate Settled(r: Request) {
    && (r.canceled ==> Rank(r.phase) == Rank(Worked) || Rank(r.phase) >= Rank(Answered))
    && (Rank(r.phase) >= Rank(Answered) && (r.canceled || r.dbFailed) ==> r.failed)
    && (r.dbFailed ==> !r.canceled && Rank(r.phase) >= Rank(DBAnswered))
  }

  predicate Gauges(s: State) {
    var t, rs := s.telemetry, s.requests;
    && s.channel == Sum(rs, Between(Sent, Answered))
    && t.active == Sum(rs, Between(Counted, DurationKnown))
    && t.activeWork == Sum(rs, Between(Working, Working))
    && t.dbActive == Sum(rs, Between(DBActive, DBMeasured))
  }

  predicate HttpTally(t: Tally, rs: seq<Request>) {
    && t.requests == t.durations == Sum(rs, RecordedOf) && t.errors == Sum(rs, ErrorOf)
    && t.durationTime == Sum(rs, DurationOf)
    && |t.buckets| == |BOUNDARIES|
    && forall i :: 0 <= i < |BOUNDARIES| ==> t.buckets[i] == Sum(rs, Within(BOUNDARIES[i]))
  }

  predicate QueryTally(t: Tally, rs: seq<Request>) {
    && t.requests == t.durations == Sum(rs, QueryOf) && t.errors == Sum(rs, QueryErrorOf)
    && t.durationTime == Sum(rs, QueryDurationOf)
    && |t.buckets| == |BOUNDARIES|
    && forall i :: 0 <= i < |BOUNDARIES| ==> t.buckets[i] == Sum(rs, QueryWithin(BOUNDARIES[i]))
  }

  predicate Inv(capacity: nat, s: State) {
    && Gauges(s) && HttpTally(s.telemetry.http, s.requests) && QueryTally(s.telemetry.db, s.requests)
    && s.channel <= capacity
    && (forall r :: r in s.requests ==> Settled(r))
  }

  // ----- The invariant -----

  lemma InitInv(capacity: nat, clock: int)
    ensures Inv(capacity, Init(clock))
  {
  }

  lemma ArriveGauges(s: State, r: Request)
    requires Gauges(s) && r.phase == Entered
    ensures Gauges(s.(requests := s.requests + [r]))
  {
    SumAppend(s.requests, r, Between(Sent, Answered));
    SumAppend(s.requests, r, Between(Counted, DurationKnown));
    SumAppend(s.requests, r, Between(Working, Working));
    SumAppend(s.requests, r, Between(DBActive, DBMeasured));
  }

  lemma ArriveTallies(c: Counters, rs: seq<Request>, r: Request)
    requires HttpTally(c.http, rs) && QueryTally(c.db, rs) && r.phase == Entered
    ensures HttpTally(c.http, rs + [r]) && QueryTally(c.db, rs + [r])
  {
    SumAppend(rs, r, RecordedOf);
    SumAppend(rs, r, ErrorOf);
    SumAppend(rs, r, DurationOf);
    SumAppend(rs, r, QueryOf);
    SumAppend(rs, r, QueryErrorOf);
    SumAppend(rs, r, QueryDurationOf);
    forall i | 0 <= i < |BOUNDARIES|
      ensures Sum(rs + [r], Within(BOUNDARIES[i])) == Sum(rs, Within(BOUNDARIES[i]))
      ensures Sum(rs + [r], QueryWithin(BOUNDARIES[i])) == Sum(rs, QueryWithin(BOUNDARIES[i]))
    {
      SumAppend(rs, r, Within(BOUNDARIES[i]));
      SumAppend(rs, r, QueryWithin(BOUNDARIES[i]));
    }
  }

  lemma ArriveInv(capacity: nat, s: State)
    requires Inv(capacity, s)
    ensures Inv(capacity, Next(capacity, s, Arrive))
  {
    ArriveGauges(s, Arrival(s.clock));
    ArriveTallies(s.telemetry, s.requests, Arrival(s.clock));
  }

  predicate GaugeChange(t: Counters, t': Counters, channel: int, r: Request, r': Request) {
    && channel == InPhases(r', Sent, Answered) - InPhases(r, Sent, Answered)
    && t'.active - t.active == InPhases(r', Counted, DurationKnown) - InPhases(r, Counted, DurationKnown)
    && t'.activeWork - t.activeWork == InPhases(r', Working, Working) - InPhases(r, Working, Working)
    && t'.dbActive - t.dbActive == InPhases(r', DBActive, DBMeasured) - InPhases(r, DBActive, DBMeasured)
  }

  lemma MovedSlots(t: Counters, r: Request, clock: int, fails: bool)
    requires Shaped(t)
    ensures var r' := Moved(r, clock, fails);
      && ChannelChange(r) == InPhases(r', Sent, Answered) - InPhases(r, Sent, Answered)
      && Told(t, r).active - t.active == InPhases(r', Counted, DurationKnown) - InPhases(r, Counted, DurationKnown)
  {
  }

  lemma MovedWork(t: Counters, r: Request, clock: int, fails: bool)
    requires Shaped(t)
    ensures var r' := Moved(r, clock, fails);
      && Told(t, r).activeWork - t.activeWork == InPhases(r', Working, Working) - InPhases(r, Working, Working)
      && Told(t, r).dbActive - t.dbActive == InPhases(r', DBActive, DBMeasured) - InPhases(r, DBActive, DBMeasured)
  {
  }

  lemma MovedGauges(t: Counters, r: Request, clock: int, fails: bool)
    requires Shaped(t)
    ensures GaugeChange(t, Told(t, r), ChannelChange(r), r, Moved(r, clock, fails))
  {
    MovedSlots(t, r, clock, fails);
    MovedWork(t, r, clock, fails);
  }

  lemma GaugesFollow(s: State, s': State, k: nat, r': Request)
    requires Gauges(s) && k < |s.requests| && s'.requests == s.requests[k := r']
    requires GaugeChange(s.telemetry, s'.telemetry, s'.channel - s.channel, s.requests[k], r')
    ensures Gauges(s')
  {
    SumUpdate(s.requests, k, r', Between(Sent, Answered));
    SumUpdate(s.requests, k, r', Between(Counted, DurationKnown));
    SumUpdate(s.requests, k, r', Between(Working, Working));
    SumUpdate(s.requests, k, r', Between(DBActive, DBMeasured));
  }

  predicate HttpChange(t: Tally, t': Tally, r: Request, r': Request) {
    && |t.buckets| == |t'.buckets| == |BOUNDARIES|
    && t'.requests + RecordedOf(r) == t.requests + RecordedOf(r')
    && t'.durations + RecordedOf(r) == t.durations + RecordedOf(r')
    && t'.errors + ErrorOf(r) == t.errors + ErrorOf(r')
    && t'.durationTime + DurationOf(r) == t.durationTime + DurationOf(r')
    && forall i :: 0 <= i < |BOUNDARIES| ==>
      t'.buckets[i] + WithinOf(r, BOUNDARIES[i]) == t.buckets[i] + WithinOf(r', BOUNDARIES[i])
  }

  predicate QueryChange(t: Tally, t': Tally, r: Request, r': Request) {
    && |t.buckets| == |t'.buckets| == |BOUNDARIES|
    && t'.requests + QueryOf(r) == t.requests + QueryOf(r') && t'.durations + QueryOf(r) == t.durations + QueryOf(r')
    && t'.errors + QueryErrorOf(r) == t.errors + QueryErrorOf(r')
    && t'.durationTime + QueryDurationOf(r) == t.durationTime + QueryDurationOf(r')
    && forall i :: 0 <= i < |BOUNDARIES| ==>
      t'.buckets[i] + QueryWithinOf(r, BOUNDARIES[i]) == t.buckets[i] + QueryWithinOf(r', BOUNDARIES[i])
  }

  lemma MovedHttp(t: Counters, r: Request, clock: int, fails: bool)
    requires Shaped(t)
    ensures HttpChange(t.http, Told(t, r).http, r, Moved(r, clock, fails))
  {
  }

  lemma MovedQuery(t: Counters, r: Request, clock: int, fails: bool)
    requires Shaped(t) && Settled(r)
    ensures QueryChange(t.db, Told(t, r).db, r, Moved(r, clock, fails))
  {
  }

  lemma HttpFollows(t: Tally, t': Tally, rs: seq<Request>, k: nat, r': Request)
    requires HttpTally(t, rs) && k < |rs| && HttpChange(t, t', rs[k], r')
    ensures HttpTally(t', rs[k := r'])
  {
    SumUpdate(rs, k, r', RecordedOf);
    SumUpdate(rs, k, r', ErrorOf);
    SumUpdate(rs, k, r', DurationOf);
    forall i | 0 <= i < |BOUNDARIES|
      ensures t'.buckets[i] == Sum(rs[k := r'], Within(BOUNDARIES[i]))
    {
      SumUpdate(rs, k, r', Within(BOUNDARIES[i]));
    }
  }

  lemma QueryFollows(t: Tally, t': Tally, rs: seq<Request>, k: nat, r': Request)
    requires QueryTally(t, rs) && k < |rs| && QueryChange(t, t', rs[k], r')
    ensures QueryTally(t', rs[k := r'])
  {
    SumUpdate(rs, k, r', QueryOf);
    SumUpdate(rs, k, r', QueryErrorOf);
    SumUpdate(rs, k, r', QueryDurationOf);
    forall i | 0 <= i < |BOUNDARIES|
      ensures t'.buckets[i] == Sum(rs[k := r'], QueryWithin(BOUNDARIES[i]))
    {
      SumUpdate(rs, k, r', QueryWithin(BOUNDARIES[i]));
    }
  }

  lemma MovedSettled(r: Request, clock: int, fails: bool)
    requires Settled(r)
    ensures Settled(Moved(r, clock, fails))
  {
  }

  lemma AdvanceInv(capacity: nat, s: State, k: nat, fails: bool)
    requires Inv(capacity, s)
    ensures Inv(capacity, Next(capacity, s, Advance(k, fails)))
  {
    if Enabled(capacity, s, k) {
      var r, s' := s.requests[k], Next(capacity, s, Advance(k, fails));
      var r' := Moved(r, s.clock, fails);
      MovedGauges(s.telemetry, r, s.clock, fails);
      MovedHttp(s.telemetry, r, s.clock, fails);
      MovedQuery(s.telemetry, r, s.clock, fails);
      MovedSettled(r, s.clock, fails);
      GaugesFollow(s, s', k, r');
      HttpFollows(s.telemetry.http, s'.telemetry.http, s.requests, k, r');
      QueryFollows(s.telemetry.db, s'.telemetry.db, s.requests, k, r');
    }
  }

  lemma {:induction false} InvAlways(capacity: nat, start: int, events: seq<Event>)
    ensures Inv(capacity, After(capacity, Init(start), events))
  {
    if |events| == 0 {
      InitInv(capacity, start);
    } else {
      var front, e := events[..|events| - 1], events[|events| - 1];
      InvAlways(capacity, start, front);
      var s := After(capacity, Init(start), front);
      match e
      case Arrive => ArriveInv(capacity, s);
      case Tick(d) =>
      case Advance(k, fails) => AdvanceInv(capacity, s, k, fails);
    }
  }

  // ----- What every interleaving keeps -----

  function Busy(): Request -> int {
    (r: Request) => InPhases(r, Working, Working) + InPhases(r, DBActive, DBMeasured)
  }

  // Local work and database calls together never exceed the semaphore: each
  // request is in at most one of them, and only while it holds a slot.
  lemma BusyWithinCapacity(capacity: nat, start: int, events: seq<Event>)
    ensures var s := After(capacity, Init(start), events);
      0 <= s.telemetry.activeWork + s.telemetry.dbActive <= s.channel <= capacity
    ensures var s := After(capacity, Init(start), events);
      s.telemetry.active == Sum(s.requests, Between(Counted, DurationKnown))
  {
    InvAlways(capacity, start, events);
    BusyIsInside(After(capacity, Init(start), events).requests);
  }

  lemma BusyIsInside(rs: seq<Request>)
    ensures 0 <= Sum(rs, Between(Working, Working)) + Sum(rs, Between(DBActive, DBMeasured))
      <= Sum(rs, Between(Sent, Answered))
  {
    SumCombine(rs, Between(Working, Working), 1, Between(DBActive, DBMeasured), Busy());
    SumAtMost(rs, Busy(), Between(Sent, Answered));
    var zero := (r: Request) => 0;
    SumZero(rs, zero);
    SumAtMost(rs, zero, Busy());
  }

  predicate AllDone(rs: seq<Request>) {
    forall r :: r in rs ==> r.phase == Done
  }

  function CanceledOf(r: Request): int { if r.canceled then 1 else 0 }
  function FailedOf(r: Request): int { if r.failed then 1 else 0 }

  function TookAtMost(boundary: int): Request -> int {
    (r: Request) => if r.duration <= boundary then 1 else 0
  }

  function QueryTookAtMost(boundary: int): Request -> int {
    (r: Request) => if !r.canceled && r.dbDuration <= boundary then 1 else 0
  }

  lemma QuietGauges(s: State)
    requires Gauges(s) && AllDone(s.requests)
    ensures s.channel == 0 && s.telemetry.active == 0 && s.telemetry.activeWork == 0 && s.telemetry.dbActive == 0
  {
    SumZero(s.requests, Between(Sent, Answered));
    SumZero(s.requests, Between(Counted, DurationKnown));
    SumZero(s.requests, Between(Working, Working));
    SumZero(s.requests, Between(DBActive, DBMeasured));
  }

  function ErrorsBehind(): Request -> int {
    (r: Request) => QueryErrorOf(r) + CanceledOf(r)
  }

  lemma DoneContributes(r: Request)
    requires r.phase == Done && Settled(r)
    ensures RecordedOf(r) == 1 && ErrorOf(r) == FailedOf(r) && RecordedOf(r) == QueryOf(r) + CanceledOf(r)
    ensures QueryErrorOf(r) + CanceledOf(r) <= ErrorOf(r)
  {
  }

  lemma QuietTotals(http: Tally, db: Tally, rs: seq<Request>)
    requires HttpTally(http, rs) && QueryTally(db, rs) && AllDone(rs) && forall r :: r in rs ==> Settled(r)
    ensures http.requests == |rs| && http.errors == Sum(rs, FailedOf)
    ensures http.requests == db.requests + Sum(rs, CanceledOf)
    ensures http.errors >= db.errors + Sum(rs, CanceledOf)
  {
    forall r | r in rs
      ensures RecordedOf(r) == 1 && ErrorOf(r) == FailedOf(r) && RecordedOf(r) == QueryOf(r) + CanceledOf(r)
      ensures QueryErrorOf(r) + CanceledOf(r) <= ErrorOf(r)
    {
      DoneContributes(r);
    }
    SumOnes(rs, RecordedOf);
    SumSame(rs, ErrorOf, FailedOf);
    SumCombine(rs, QueryOf, 1, CanceledOf, RecordedOf);
    SumCombine(rs, QueryErrorOf, 1, CanceledOf, ErrorsBehind());
    SumAtMost(rs, ErrorsBehind(), ErrorOf);
  }

  // When every request is done: gauges and channel are zero; every request that
  // was not canceled made exactly one database call; every cancellation and every
  // failed call is a failed request; and both histograms count what came.
  lemma Quiescence(capacity: nat, start: int, events: seq<Event>)
    requires AllDone(After(capacity, Init(start), events).requests)
    ensures var s := After(capacity, Init(start), events); var t, rs := s.telemetry, s.requests;
      && s.channel == 0 && t.active == 0 && t.activeWork == 0 && t.dbActive == 0
      && t.http.requests == |rs| == t.db.requests + Sum(rs, CanceledOf)
      && t.http.errors == Sum(rs, FailedOf) >= t.db.errors + Sum(rs, CanceledOf)
      && forall i :: 0 <= i < |BOUNDARIES| ==>
          && t.http.buckets[i] == Sum(rs, TookAtMost(BOUNDARIES[i]))
          && t.db.buckets[i] == Sum(rs, QueryTookAtMost(BOUNDARIES[i]))
  {
    InvAlways(capacity, start, events);
    var s := After(capacity, Init(start), events);
    QuietGauges(s);
    QuietTotals(s.telemetry.http, s.telemetry.db, s.requests);
    QuietHistograms(s.telemetry.http, s.telemetry.db, s.requests);
  }

  lemma QuietHistograms(http: Tally, db: Tally, rs: seq<Request>)
    requires HttpTally(http, rs) && QueryTally(db, rs) && AllDone(rs)
    ensures forall i :: 0 <= i < |BOUNDARIES| ==>
      http.buckets[i] == Sum(rs, TookAtMost(BOUNDARIES[i])) && db.buckets[i] == Sum(rs, QueryTookAtMost(BOUNDARIES[i]))
  {
    forall i | 0 <= i < |BOUNDARIES|
      ensures http.buckets[i] == Sum(rs, TookAtMost(BOUNDARIES[i]))
        && db.buckets[i] == Sum(rs, QueryTookAtMost(BOUNDARIES[i]))
    {
      SumSame(rs, Within(BOUNDARIES[i]), TookAtMost(BOUNDARIES[i]));
      SumSame(rs, QueryWithin(BOUNDARIES[i]), QueryTookAtMost(BOUNDARIES[i]));
    }
  }
}
