// A run of the controller from its start: five reconciles that only read rising
// demand, the last of which prescales.
module PrescaleRun {
  import opened Values
  import opened Samples
  import opened Observation
  import opened HistoryCache
  import opened Spec
  import opened Controller
  import opened ControllerRuns
  import opened PrescaleLaws
  import opened ReconcileLaws
  import S = SharedWorkloadExample
  import V = VerdictLaws
  import N = ReadinessLaws
  import H = History
  import C = CapacityEstimate
  import F = Forecast
  import Laws = ForecastLaws
  import P = Prediction
  import G = Regression
  import R = Readiness

  const KEY: string := "shop/web"
  const HASH: string := "5d4f"

  function Web(): OptiScalerSpec {
    OptiScalerSpec(
      WorkloadRef("apps/v1", "Deployment", "web"), 1, 10,
      MetricSpec("q", "q", "q", "q", "q", "q", "q", Finite(4.0)), Finite(200.0),
      PolicySpec(Finite(1.0), Finite(0.0), 2, 1, 60), P.Config(true, 30, Finite(0.75), Finite(0.1)), "p", [])
  }

  lemma WebIsValid()
    ensures ValidSpec(Web())
  {
    S.NotBlank("q");
    S.NotBlank("p");
    S.NotBlank("web");
  }

  // ----- The cluster: one revision, two pods that were Ready ten seconds after
  // their creation -----

  function Hashed(): map<string, string> {
    map["pod-template-hash" := HASH]
  }

  function Owned(): R.ReplicaSet {
    R.ReplicaSet(Some(R.Owner("Deployment", "web", "d")), "r", Hashed(), R.Template(Hashed(), "t"))
  }

  function Started(): R.Pod {
    R.Pod(false, Hashed(), Some(R.Owner("ReplicaSet", "web", "r")), 890 * SECOND,
          [R.Condition(true, true, 900 * SECOND)], ["app"], [R.ContainerStatus("app", 0)])
  }

  function View(): R.TargetView {
    R.TargetView(R.Deployment("web", "d", 1, 1, R.Template(map[], "t")), Some([Started(), Started()]), Some([Owned()]))
  }

  lemma RevisionIsAgreed()
    ensures N.Agreed(View().deployment, View().replicaSets.value, HASH, "r")
  {
    var rs := View().replicaSets.value;
    assert rs[0] in rs && N.HasTemplate(View().deployment, rs[0]);
  }

  lemma StartIsClean()
    ensures N.CleanStart(Started(), HASH, "r", 10 * SECOND, 900 * SECOND)
    ensures forall l, r :: N.CleanStart(Started(), HASH, "r", l, r) ==> l == 10 * SECOND && r == 900 * SECOND
  {
    var pod := Started();
    assert N.ReadySince(pod.conditions, 0, 900 * SECOND);
    assert N.NeverRestartedAt(pod.statuses, "app", 0);
    assert forall c :: c in pod.containers ==> c == "app";
  }

  lemma LeadIsTen(learned: R.Learned)
    ensures LeadTime(View(), learned, 10 * SECOND)
  {
    RevisionIsAgreed();
    StartIsClean();
    var pods := View().pods.value;
    assert pods[0] in pods && forall pod :: pod in pods ==> pod == Started();
    assert N.LongestStart(pods, HASH, "r", 10 * SECOND, 900 * SECOND);
    assert LeadNow(pods, HASH, "r", 10 * SECOND);
  }

  lemma TwoAreReady()
    ensures R.ReadinessOf(View()).Some? && R.ReadinessOf(View()).value.ready == 2
  {
    var pods := View().pods.value;
    N.ObservationIff(View());
    assert pods[0].conditions[0].ready && pods[1].conditions[0].ready;
    assert N.Serves(pods[0]) && N.Serves(pods[1]);
    assert N.ServingPods(pods) == {0, 1};
  }

  // ----- What Prometheus answers at reconcile n -----

  function At(n: nat): int {
    (1000 + 20 * n) * SECOND
  }

  function Seen(v: real, n: nat): Metric {
    Metric(Finite(v), At(n), true, true)
  }

  // Two replicas of four slots, half loaded and well within the SLO; demand rises by
  // ten requests per second between reconciles.
  function Answers(n: nat): Readings {
    Readings(
      At(n), Some(2), Some(2), true,
      Seen(100.0, n), Seen(4.0, n), Seen(2.0, n), Seen(2.0, n), Seen(20.0, n), Seen(0.0, n),
      Seen(10.0 + 10.0 * n as real, n), [], View(), true, true)
  }

  lemma AnswersAreSteady(n: nat)
    ensures ValidSpec(Web()) && SteadyNow(Web(), Answers(n), 2, 2) && IsEfficiency(Answers(n), 5.0)
  {
    WebIsValid();
    TwoAreReady();
    assert V.Hottest(Answers(n), 2.0);
    assert V.Complete(Web(), Answers(n), 2, 2.0);
  }

  // ----- The run -----

  ghost function Step(front: seq<Reconciliation>, n: nat): Reconciliation {
    var m, before, readings := CacheHeld(front), StatusStored(front, KEY), Answers(n);
    Reconciliation(
      KEY, Web(), readings, before, StatusAfter(m, KEY, Web(), before, readings), m,
      CacheAfter(m, KEY, Web(), before, readings), WriteOf(m, KEY, Web(), before, readings))
  }

  ghost function Trace(n: nat): seq<Reconciliation> {
    if n == 0 then [] else Trace(n - 1) + [Step(Trace(n - 1), n - 1)]
  }

  lemma StepContinues(front: seq<Reconciliation>, n: nat)
    requires IsRun(front)
    ensures IsRun(front + [Step(front, n)])
  {
    assert (front + [Step(front, n)])[..|front|] == front;
  }

  lemma {:induction false} TraceIsRun(n: nat)
    ensures IsRun(Trace(n)) && |Trace(n)| == n
  {
    if n > 0 {
      TraceIsRun(n - 1);
      StepContinues(Trace(n - 1), n - 1);
    }
  }

  function Demands(n: nat): seq<Sample> {
    seq(n, i requires 0 <= i < n => Sample(At(i), Finite(10.0 + 10.0 * i as real)))
  }

  function Fives(n: nat): seq<Sample> {
    seq(n, i requires 0 <= i < n => Sample(At(i), Finite(5.0)))
  }

  lemma OneMore(kind: Kind, h: seq<Sample>, sample: Sample, n: nat)
    requires |h| == n <= 4 && sample.timestamp == At(n) && H.InWindow(kind, At(n))(sample)
    requires forall i :: 0 <= i < n ==> h[i].timestamp == At(i) && H.InWindow(kind, At(n))(h[i])
    ensures H.Appended(kind, h, sample, At(n)) == h + [sample]
  {
    FilterEverything(h, H.InWindow(kind, At(n)));
  }

  lemma DemandGrows(n: nat)
    requires n <= 4
    ensures H.Appended(Demand, Demands(n), Sample(At(n), Finite(10.0 + 10.0 * n as real)), At(n)) == Demands(n + 1)
  {
    OneMore(Demand, Demands(n), Sample(At(n), Finite(10.0 + 10.0 * n as real)), n);
  }

  lemma CapacityGrows(n: nat)
    requires n <= 4
    ensures H.Appended(Capacity, Fives(n), Sample(At(n), Finite(5.0)), At(n)) == Fives(n + 1)
  {
    OneMore(Capacity, Fives(n), Sample(At(n), Finite(5.0)), n);
  }

  lemma HistoriesGrow(n: nat)
    requires n <= 4
    ensures H.Appended(Demand, Demands(n), Sample(At(n), Finite(10.0 + 10.0 * n as real)), At(n)) == Demands(n + 1)
    ensures H.Appended(Capacity, Fives(n), Sample(At(n), Finite(5.0)), At(n)) == Fives(n + 1)
  {
    DemandGrows(n);
    CapacityGrows(n);
  }

  predicate Holds(m: Histories, n: nat) {
    Lookup(m, KEY).demand == Demands(n) && Lookup(m, KEY).capacity == Fives(n)
  }

  lemma UpdateHolds(m: Histories, n: nat, m': Histories)
    requires Holds(m, n) && n <= 4
    requires m' == Updated(m, KEY, Sample(At(n), Finite(10.0 + 10.0 * n as real)), Sample(At(n), Finite(5.0)), At(n))
    ensures Holds(m', n + 1)
  {
    HistoriesGrow(n);
  }

  lemma StepHolds(m: Histories, before: Status, n: nat)
    requires Holds(m, n) && n <= 4
    ensures Holds(CacheAfter(m, KEY, Web(), before, Answers(n)), n + 1)
  {
    AnswersAreSteady(n);
    CacheIs(m, KEY, Web(), before, Answers(n), 2, 2, 5.0);
    UpdateHolds(m, n, CacheAfter(m, KEY, Web(), before, Answers(n)));
  }

  lemma CacheOfStep(front: seq<Reconciliation>, n: nat)
    requires Holds(CacheHeld(front), n) && n <= 4
    ensures Holds(CacheHeld(front + [Step(front, n)]), n + 1)
  {
    StepHolds(CacheHeld(front), StatusStored(front, KEY), n);
  }

  lemma {:induction false} CacheAfterRun(n: nat)
    requires n <= 5
    ensures Holds(CacheHeld(Trace(n)), n)
  {
    if n > 0 {
      CacheAfterRun(n - 1);
      CacheOfStep(Trace(n - 1), n - 1);
    }
  }

  // ----- The decisions -----

  lemma HistoriesSeen(m: Histories, n: nat)
    requires Holds(m, n) && n <= 4
    ensures DemandNow(m, KEY, Answers(n)) == Demands(n + 1) && CapacityNow(m, KEY, Answers(n), 5.0) == Fives(n + 1)
  {
    HistoriesGrow(n);
  }

  lemma ThirtyIsSafe(n: nat)
    requires ValidSpec(Web()) && n > 0
    ensures IsSafe(Web(), Fives(n), 2, 30.0)
  {
    FiveEach(n);
  }

  lemma FiguresAre(m: Histories, n: nat)
    requires Holds(m, n) && n <= 4 && ValidSpec(Web())
    ensures Figures(m, KEY, Web(), Answers(n), 2, 2, 0.75, 5.0, 30.0)
  {
    HistoriesSeen(m, n);
    ThirtyIsSafe(n + 1);
    AnswersAreSteady(n);
  }

  lemma FiveEach(n: nat)
    requires n > 0
    ensures C.Conservative(C.Efficiencies(Fives(n))) == 5.0
  {
    var values := C.Efficiencies(Fives(n));
    C.ConservativeIsPercentile(values, C.Conservative(values) + 1.0);
    assert forall v :: v in values ==> v == 5.0;
  }

  lemma TooFewToFit(demand: seq<Sample>, now: int, horizon: int)
    requires |demand| < 5
    ensures F.Predict(demand, now, horizon).quality != F.High
  {
    Laws.ResultFlags(demand, now, horizon);
    Laws.FittedIff(demand, now, horizon);
    if |demand| > 0 {
      H.FilterAll(demand, F.NotBefore(Last(demand).timestamp - F.TREND_FIT_WINDOW));
    }
  }

  // Nothing but a prescale can be due.
  lemma OnlyPrescaleIsDue(m: Histories, before: Status, n: nat, w: Write)
    requires ValidSpec(Web()) && Holds(m, n) && n <= 4
    ensures Due(m, KEY, Web(), before, Answers(n), 2, 2, 0.75, 5.0, 30.0, w) <==>
      w == Write("web", 2, 4) && PrescaleDue(Web(), before, Answers(n), 2, 2, Demands(n + 1), Fives(n + 1), 30.0)
  {
    HistoriesSeen(m, n);
  }

  lemma NotOutgrownYet(before: Status, n: nat)
    requires n < 4
    ensures !Outgrown(Web(), before, Answers(n), Demands(n + 1), 30.0)
  {
    forall lead | LeadTime(Answers(n).view, before.learned, lead)
      ensures !Grows(Web(), Answers(n), Demands(n + 1), lead, 30.0)
    {
      TooFewToFit(Demands(n + 1), At(n), lead + 15 * SECOND + 30 * SECOND / 2);
    }
  }

  lemma NothingDueYet(m: Histories, before: Status, n: nat)
    requires ValidSpec(Web()) && Holds(m, n) && n < 4
    ensures !SomethingDue(m, KEY, Web(), before, Answers(n), 2, 2, 0.75, 5.0, 30.0)
  {
    NotOutgrownYet(before, n);
    forall w
      ensures !Due(m, KEY, Web(), before, Answers(n), 2, 2, 0.75, 5.0, 30.0, w)
    {
      OnlyPrescaleIsDue(m, before, n, w);
    }
  }

  lemma NothingWrittenYet(m: Histories, before: Status, n: nat)
    requires Holds(m, n) && n < 4
    ensures WriteOf(m, KEY, Web(), before, Answers(n)).None?
  {
    WebIsValid();
    FiguresAre(m, n);
    NothingDueYet(m, before, n);
    forall w
      ensures WriteOf(m, KEY, Web(), before, Answers(n)) != Some(w)
    {
      WriteIff(m, KEY, Web(), before, Answers(n), 2, 2, 0.75, 5.0, 30.0, w);
    }
  }

  lemma NoScaleTimeYet(m: Histories, before: Status, n: nat)
    requires Holds(m, n) && n < 4 && before.lastScale.None?
    ensures StatusAfter(m, KEY, Web(), before, Answers(n)).lastScale.None?
  {
    WebIsValid();
    FiguresAre(m, n);
    NothingDueYet(m, before, n);
    StatusIs(m, KEY, Web(), before, Answers(n), 2, 2, 0.75, 5.0, 30.0);
  }

  predicate Untouched(trace: seq<Reconciliation>) {
    StatusStored(trace, KEY).lastScale.None? && forall r :: r in trace ==> r.write.None?
  }

  lemma StepWritesNothing(front: seq<Reconciliation>, n: nat)
    requires Holds(CacheHeld(front), n) && n < 4 && Untouched(front)
    ensures Untouched(front + [Step(front, n)])
  {
    NothingWrittenYet(CacheHeld(front), StatusStored(front, KEY), n);
    NoScaleTimeYet(CacheHeld(front), StatusStored(front, KEY), n);
  }

  lemma TraceGoesOn(n: nat, front: seq<Reconciliation>, trace: seq<Reconciliation>)
    requires front == Trace(n) && trace == Trace(n + 1)
    ensures trace == front + [Step(front, n)]
  {
  }

  lemma StaysUntouched(front: seq<Reconciliation>, n: nat, trace: seq<Reconciliation>)
    requires Holds(CacheHeld(front), n) && n < 4 && Untouched(front)
    requires trace == front + [Step(front, n)]
    ensures Untouched(trace)
  {
    StepWritesNothing(front, n);
  }

  lemma {:induction false} NoWriteYet(n: nat)
    requires n <= 4
    ensures Untouched(Trace(n))
  {
    if n > 0 {
      var front, trace := Trace(n - 1), Trace(n);
      NoWriteYet(n - 1);
      CacheAfterRun(n - 1);
      TraceGoesOn(n - 1, front, trace);
      StaysUntouched(front, n - 1, trace);
    }
  }

  // The demand of all five reconciles.
  function Ramp(): seq<Sample> {
    [Sample(1000 * SECOND, Finite(10.0)), Sample(1020 * SECOND, Finite(20.0)), Sample(1040 * SECOND, Finite(30.0)),
     Sample(1060 * SECOND, Finite(40.0)), Sample(1080 * SECOND, Finite(50.0))]
  }

  lemma RampIsFitted()
    ensures Laws.Fits(Ramp(), 1080 * SECOND, 40 * SECOND) && Laws.Span(Ramp()) == 80 * SECOND
    ensures F.FitWindow(Ramp()) == Ramp()
  {
    FilterEverything(Ramp(), F.NotBefore(Last(Ramp()).timestamp - F.TREND_FIT_WINDOW));
    F.NoDefect(Ramp());
  }

  lemma RampIsLine()
    ensures Laws.AllOnLine(Laws.FitPoints(Ramp()), 10.0, 0.5)
  {
    RampIsFitted();
    assert Laws.FitPoints(Ramp())
      == [G.Point(0.0, 10.0), G.Point(20.0, 20.0), G.Point(40.0, 30.0), G.Point(60.0, 40.0), G.Point(80.0, 50.0)];
  }

  // 40 seconds ahead the ramp reaches 70 requests per second.
  lemma RampForecast()
    ensures var trend := F.Predict(Ramp(), 1080 * SECOND, 40 * SECOND); trend.quality == F.High && trend.rate == 70.0
  {
    RampIsFitted();
    RampIsLine();
    Laws.CollinearExtrapolates(Ramp(), 1080 * SECOND, 40 * SECOND, 10.0, 0.5);
  }

  lemma RampGrows(demand: seq<Sample>)
    requires demand == Ramp()
    ensures Grows(Web(), Answers(4), demand, 10 * SECOND, 30.0)
  {
    RampForecast();
  }

  lemma OutgrownAtFifth(before: Status)
    ensures Outgrown(Web(), before, Answers(4), Demands(5), 30.0)
  {
    LeadIsTen(before.learned);
    assert Demands(5) == Ramp();
    RampGrows(Demands(5));
  }

  lemma FiveAreLearned()
    ensures ThreeLearned(Fives(5))
  {
  }

  lemma DueAtFifth(before: Status)
    requires before.lastScale.None? && ValidSpec(Web())
    ensures PrescaleDue(Web(), before, Answers(4), 2, 2, Demands(5), Fives(5), 30.0)
  {
    AnswersAreSteady(4);
    OutgrownAtFifth(before);
    FiveAreLearned();
  }

  lemma FifthPrescales(m: Histories, before: Status)
    requires Holds(m, 4) && before.lastScale.None?
    ensures WriteOf(m, KEY, Web(), before, Answers(4)) == Some(Write("web", 2, 4))
  {
    WebIsValid();
    FiguresAre(m, 4);
    DueAtFifth(before);
    OnlyPrescaleIsDue(m, before, 4, Write("web", 2, 4));
    WriteIff(m, KEY, Web(), before, Answers(4), 2, 2, 0.75, 5.0, 30.0, Write("web", 2, 4));
  }

  // From an empty cache and a new status: four reconciles gather evidence and write
  // nothing, and the fifth raises the target from 2 to 4 replicas while its latency
  // is within the SLO.
  lemma FifthReconcilePrescales(trace: seq<Reconciliation>)
    requires trace == Trace(5)
    ensures IsRun(trace) && |trace| == 5
    ensures forall i :: 0 <= i < 4 ==> trace[i].write.None?
    ensures trace[4].write == Some(Write("web", 2, 4))
  {
    TraceIsRun(5);
    TraceIsRun(4);
    NoWriteYet(4);
    CacheAfterRun(4);
    LastPrescales(Trace(4));
    assert forall i :: 0 <= i < 4 ==> trace[i] in Trace(4);
  }

  lemma LastPrescales(front: seq<Reconciliation>)
    requires Holds(CacheHeld(front), 4) && Untouched(front)
    ensures Step(front, 4).write == Some(Write("web", 2, 4))
  {
    FifthPrescales(CacheHeld(front), StatusStored(front, KEY));
  }
}
