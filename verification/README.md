# OptiScale: a verified model of the capacity governor

OptiScale watches a Kubernetes workload, decides which component limits it, and raises at most one replica count
per reconcile, reactively or ahead of a forecast. This project models its decision core in Dafny and proves what
that core promises, over all inputs, all runs and all interleavings.

The model has four parts, and a reference for each operation that decides something.

* **Forecast and capacity estimate** (`Samples`, `History`, `Regression`, `Forecast`, `ForecastLaws`,
  `ForecastSymmetries`, `CapacityEstimate`). Bounded histories are Go slices over arrays, compacted in place and
  proved against a filter and against an unbounded log. The least-squares loops are proved against sums, and the
  sums against optimality, variance decomposition and the range inequality behind the quality gates. The capacity
  estimate is proved to be an order statistic.
* **The shared map of histories** (`HistoryCache`, `CacheLaws`, `CacheEviction`, `ControllerCache`). A class with a
  map of slices, ten-minute expiry, at most 128 entries and oldest-first eviction, proved against a map of values; then
  that map against one that never forgets, call by call and over runs of the controller.
* **The decision pipeline** (`Observation`, `Analyzer`, `AttributionCycles`, `Policy`, `Readiness`, `Prediction`,
  `Spec`, `ConfiguredCycles`, `Controller`, `ControllerLaws`, `SharedWorkloadExample`, `ControllerRuns`, `ClosedLoop`).
  Every stage as the program runs it, from the specification and arbitrary readings to at most one write; then facts
  about one reconcile, about any run of reconciles of any number of resources, and about the loop closed over its own
  writes.
* **The two demo services** (`Counting`, `DemoApp`, `DemoProtocol`, `DemoLaws`, `DemoWindows`, `DemoProgress`,
  `DemoClock`, `Inventory`, `InventoryProtocol`, `InventoryProgress`, `InventoryClock`). Telemetry classes, and request
  handlers as atomic steps of arbitrarily many concurrent requests with a clock that ticks in between; then every
  duration traced to the two steps of the run between which it passed.
* **The reference** (`SpecLaws`, `VerdictLaws`, `ReadinessLaws`, `WriteLaws`, `PrescaleLaws`, `ReconcileLaws`,
  `PrescaleRun`, and the lemmas named `...Iff` and `...Is` elsewhere). What each operation answers, as a plain
  conjunction over its inputs with the constants written out, proved equivalent to the staged model. It ends in
  `ReconcileLaws.WriteIff`: from specification, status, readings and stored histories, exactly when a reconcile writes
  which scale.

`Values` holds what all share: floating-point values that may be non-finite, wrapping 32-bit addition, instants and
metrics.

## How the source is read

* A `float64` is `Finite(real)`, `NaN`, `PosInf` or `NegInf`, and comparisons follow IEEE for the non-finite ones.
  Arithmetic on finite values is exact. Normalized RMSE is kept squared, so its gates are 0.01 and 0.04.
* Instants and durations are integer nanoseconds; the zero instant is Go's zero time. `int32` is a bounded type and
  its additions wrap.
* Methods with loops or state are proved equal to a function of their inputs or of the old state; the lemmas are about
  those functions. `None` stands for an error return. The wording of reasons is replaced by which branch gave them.

## Hypotheses

The code does not enforce these; each theorem that needs one names it in its `requires`.

* The clock of successive steps does not run backwards (`ClockNondecreasing`, `ClockNondecreases`): history and cache
  agreement, cooldown separation. Length, order and window of a stored history need no such hypothesis.
* `DependsOn` has no cycle (`!Cyclic`): attribution to a single root. Validation refuses self-references and unknown
  names only (`Spec.TwoCyclesAreAccepted`). That a cycle is exactly what attribution cannot cope with is
  `AttributionCycles.CyclicIffUnattributable`, and `ConfiguredCycles.CyclicSpecIffNoRoot` for validated specifications.
* The replica count plus `maxScaleUpStep` fits in 32 bits: a write is a raise if and only if it does.
* No two dependencies are configured on one Deployment (`DistinctWorkloads`): a write stays within the bounds of its
  workload. Within the bounds of its component it stays without.
* The earlier of two scale writes is followed by a successful status write: cooldown separation only.
* Each reconcile starts from the status the previous reconcile of its resource stored, and from a new, empty status
  at first.

## What the proofs turned up

* The policy promises one bounded mutation. The `int32` addition is unguarded: with a very large step the decision
  asks for a negative replica count (`Policy.OverflowLowersReplicas`); the exact condition is
  `Policy.StepUpRaisesIffNoOverflow`.
* A cyclic `DependsOn` configuration passes validation, and some answers for its dependencies then saturate one and
  leave no root candidate; without a cycle none can (`ConfiguredCycles.CyclicSpecIffNoRoot`). With a cycle a violated
  SLO can so be left unexplained (`AttributionCycles.CycleHidesTheBottleneck`).
* Two dependencies may be configured on one Deployment with different bounds (`Spec.SharedWorkloadIsAccepted`). A write
  decided for one of them can then pass the other's maximum (`SharedWorkloadExample.SharedWorkloadPassesABound`); with
  distinct workloads none can (`ControllerLaws.SafeForItsWorkload`).
* The cache does not always answer like a map that never expires: a full map may evict an entry that still holds
  in-window samples. A run of 129 resources does it (`CacheEviction.FloodLosesTheFirst`); a run loses
  nothing of a resource exactly when the two agree on every call that could follow any part of the run
  (`CacheEviction.AgreementIffNothingLost`); with at most 128 resources no call can differ (`CacheLaws.FewKeysAgree`),
  and no decision of the controller does (`ControllerCache.FewResourcesForgetNothing`).
* `http_concurrency_slots_in_use` is described as the slots held. Whatever the capacity, it can reach any value with
  no slot held at all (`DemoLaws.SlotsGaugeIsUnbounded`); `DemoLaws.GaugesAreExact` says what it counts.
* The slot-seconds counter is bounded over all elapsed time, but over a window it can move by more than the window
  can hold, even in no time at all (`DemoWindows.CounterJumps`). The windows opening at a state are all bounded exactly
  when no slot time spent so far is still to be credited there (`DemoWindows.EveryWindowFitsIffNothingOpen`).
* The forecast's two documented gates, on R^2 and on RMSE, are not independent: R^2 of at least 0.96 implies the RMSE
  gate of HIGH and R^2 of at least 0.85 that of MEDIUM (`ForecastLaws.QualityGates`), while between 0.95 and 0.96 the
  RMSE gate can still decide (`ForecastSymmetries.RSquaredAloneIsNotHigh`).
* The comment on a capacity sample speaks of local-work rate; the code divides by aggregate held-slot occupancy, and
  so does the model.

## Model

| member | source | states |
|---|---|---|
| History.Compact | internal/forecast/model.go:297-304 | Overwriting the array it reads from, the loop leaves exactly the in-window acceptable samples, in order |
| History.PruneSamples | internal/forecast/model.go:297-309 | In-place pruning is that filter, cut to the newest 20 |
| History.AppendSample | internal/forecast/model.go:51-71 | The new view is prune, then append, replace or ignore; the array is kept or new |
| History.AppendCapacitySample | internal/forecast/model.go:228-255 | The same for capacity samples, which must be positive and are cut only after the append |
| History.AppendKeepsHistory | internal/forecast/model.go:51-71 | For any clock: at most 20 samples, strictly increasing timestamps, only acceptable values inside the window |
| History.AppendedIff | internal/forecast/model.go:51-71 | Exactly which samples a history holds after an append: the new one if nothing recent is later, and the recent old ones but for a replaced one or the first of twenty |
| History.HistoryRefinesLog | internal/forecast/model.go:51-71 | For a clock that does not run backwards the bounded history is the newest 20 in-window entries of a never-pruned accept/replace log |
| Forecast.CheckGates | internal/forecast/model.go:79-144 | Which gate stops a forecast, with what result, and that otherwise the fit window is finite and non-empty |
| Forecast.SelectFitWindow | internal/forecast/model.go:97-103 | The trailing 120s before the latest sample, in order |
| Forecast.Means | internal/forecast/model.go:146-152 | The accumulated means are the means of the points |
| Forecast.CheckSamples | internal/forecast/model.go:132-144 | The first defect of the window, if any; `NoDefect` says when there is none |
| Forecast.NoDefect | internal/forecast/model.go:132-144 | The sample loop passes exactly when every sample is finite, not negative and dated, and each comes after the one before by at most 45 seconds |
| Forecast.CentredSums | internal/forecast/model.go:154-164 | One pass computes covariance, both variances and both extremes |
| Forecast.Residuals | internal/forecast/model.go:182-187 | The loop sums the squared residuals of the line |
| Forecast.FitTrend | internal/forecast/model.go:146-220 | Means, sums, line, residuals and grade of a gated window, staged as specified |
| Forecast.GradeFit | internal/forecast/model.go:188-219 | R^2, squared RMSE, extrapolated rate, quality and reason from the sums |
| Forecast.LinearForecast | internal/forecast/model.go:78-220 | The staged computation is the specified gates, fit, grading and extrapolation |
| ForecastLaws.FitWindowFacts | internal/forecast/model.go:97-144 | A fitted window has at least five usable, strictly increasing samples, no gap above 45s, a span of 60s to 120s, and covers the horizon |
| ForecastLaws.FittedIff | internal/forecast/model.go:78-144 | Both directions, in numbers: a history is fitted exactly when it has at most 20 samples and its window five usable ones in order, no gap above 45s, 60s and the horizon covered, and a latest sample from 45s old to 30s ahead |
| ForecastLaws.HistoryFittedIff | internal/forecast/model.go:91-144 | The same for a stored history, whose window is its part from the first sample within 120s of the latest |
| ForecastLaws.StopsAt | internal/forecast/model.go:80-130 | Which gate stops a forecast, in order, and the LOW result it then gives |
| ForecastLaws.FitIsLeastSquares | internal/forecast/model.go:146-187 | No line has smaller residual squares than the computed one, only it has as small, and the x variance is positive |
| Regression.FittedResidual | internal/forecast/model.go:169-187 | Variance decomposition: what the fit leaves is varianceY minus slope times covariance |
| Regression.FittedIsOptimal | internal/forecast/model.go:165-187 | Least-squares optimality and uniqueness for any points that are not all at one abscissa |
| Regression.VarianceAtMostRange | internal/forecast/model.go:154-164 | The centred sum of squares is at most n times a quarter of the squared range |
| ForecastLaws.RSquaredIsCorrelation | internal/forecast/model.go:188-191 | R^2 is cov^2/(varX*varY), lies in [0,1], and the clamp never fires |
| ForecastLaws.RSquaredIsOneIffCollinear | internal/forecast/model.go:188-191 | R^2 is 1 exactly when the fitted samples are collinear |
| ForecastLaws.QualityGates | internal/forecast/model.go:188-213 | Squared RMSE is at most (1-R^2)/4; non-LOW is exactly R^2 >= 0.85; HIGH is exactly R^2 >= 0.95 with squared RMSE <= 0.01, and R^2 >= 0.96 alone gives it |
| ForecastLaws.RateIsOnLine | internal/forecast/model.go:199-205 | The forecast is the value of the fitted line one horizon after the last sample |
| ForecastLaws.NormalizedError | internal/forecast/model.go:182-192 | The squared normalized RMSE is the mean squared residual over the squared range of the samples |
| ForecastLaws.RisingForecastIsAboveMean | internal/forecast/model.go:199-205 | With a positive slope the forecast exceeds the window mean, so it is never negative |
| ForecastLaws.ResultFlags | internal/forecast/model.go:165-219 | The flags move together, and only a fitted rising trend is better than LOW |
| ForecastLaws.CollinearExtrapolates | internal/forecast/model.go:146-219 | Collinear rising samples give HIGH and the exact extrapolated value |
| ForecastSymmetries.ForecastIsClockInvariant | internal/forecast/model.go:78-220 | Shifting every timestamp and now together changes nothing |
| ForecastSymmetries.ForecastIsUnitEquivariant | internal/forecast/model.go:78-220 | Rescaling the rates rescales slope and forecast and keeps everything else |
| ForecastSymmetries.RSquaredAloneIsNotHigh | internal/forecast/model.go:206-213 | Six samples with R^2 above 0.95 that are graded MEDIUM |
| CapacityEstimate.CollectEfficiencies | internal/forecast/model.go:273-279 | The loop succeeds exactly when every sample is usable and then lists the efficiencies |
| CapacityEstimate.SafePerReplicaCapacity | internal/forecast/model.go:269-295 | The method computes the specified percentile and its two extrapolations, or nothing |
| CapacityEstimate.ConservativeIsPercentile | internal/forecast/model.go:280-284 | More than four fifths of the samples are at least the chosen value, at least one fifth at most it, and nothing larger has that property |
| CapacityEstimate.PercentileIsUnique | internal/forecast/model.go:280-284 | Only the chosen value has the property |
| CapacityEstimate.EstimateIsOrderIndependent | internal/forecast/model.go:269-295 | The order of the samples does not matter to the estimate |
| CapacityEstimate.EstimateIsMonotone | internal/forecast/model.go:269-295 | Raising samples keeps the estimate available and never lowers it |
| CapacityEstimate.SafeCapacityIsEfficiencyTimesOccupancy | internal/forecast/model.go:280-294 | Efficiency, physical capacity and safe capacity of an estimate: the percentile, times the slots, times the margin |
| ControllerLaws.SafeCapacityMatchesOccupancy | internal/controller/optiscaler_controller.go:78-95 | For a validated, prediction-enabled specification the safe capacity is the chosen efficiency times the safe operating occupancy in the snapshot |
| HistoryCache.FindOldest | internal/controller/prediction.go:263-269 | In any iteration order the scan ends at the least (lastUpdated, key) entry |
| HistoryCache.DropExpired | internal/controller/prediction.go:257-261 | In any iteration order exactly the records idle for more than ten minutes go |
| HistoryCache.RefreshRecord | internal/controller/prediction.go:253-256 | Both histories of the record are appended to in place, and its stamp is set |
| HistoryCache.MakeRoom | internal/controller/prediction.go:257-271 | Expiry and eviction leave exactly the keys of the specified map, with their records untouched |
| HistoryCache.PredictionCache.UpdateRecord | internal/controller/prediction.go:253-272 | Refresh, expiry, eviction and assignment give the specified map and leave all other records alone |
| HistoryCache.PredictionCache.Update | internal/controller/prediction.go:247-274 | The map after the call, that only arrays of the key or new ones are taken over, and that the returned copies show the refreshed histories and belong to nobody |
| CacheLaws.CacheInvariant | internal/controller/prediction.go:257-272 | In every run at most 128 entries, the updated key among them, every entry a well-formed history |
| CacheLaws.VictimIsLeast | internal/controller/prediction.go:262-271 | The victim is the only entry that comes before all others by (lastUpdated, key) |
| CacheLaws.UpdatedIff | internal/controller/prediction.go:253-272 | Exactly what an update leaves: the refreshed entry, and the others of the last ten minutes as they were, but for the first of at least 128 when a new key comes |
| HistoryCache.StringLessIff | internal/controller/prediction.go:266-266 | The order of keys is that of the first difference, or of the prefix |
| CacheLaws.CacheAgreesWithPlainMap | internal/controller/prediction.go:247-274 | A call answers exactly what a never-expiring map answers, unless an eviction threw away in-window samples of its key |
| CacheEviction.AgreementIffNothingLost | internal/controller/prediction.go:247-274 | A run loses nothing of a key exactly when every call for it that could follow any part of the run gets the answer of the map that never expires |
| CacheEviction.FloodLosesTheFirst | internal/controller/prediction.go:262-272 | A run of 129 resources, observed once each, that loses the first one and then answers it differently |
| CacheLaws.LossNeedsPressure | internal/controller/prediction.go:262-271 | An eviction that loses a key needs 128 live entries, the lost one among them, all updated within the last five and a half minutes, and a caller with yet another key |
| CacheLaws.FewKeysAgree | internal/controller/prediction.go:247-274 | With at most 128 keys the agreement is unconditional |
| ControllerCache.CacheIsThatOfCalls | internal/controller/prediction.go:247-274 | The cache after any run of the controller is the cache of the calls its predictive reconciles make |
| ControllerCache.RunCacheIsBounded | internal/controller/prediction.go:257-272 | In every run of the controller it holds at most 128 entries, each a well-formed history |
| ControllerCache.DecisionForgetsNothing | internal/controller/prediction.go:247-274 | In every run each decision is the one a never-expiring map would lead to, unless an eviction lost in-window samples of that resource |
| ControllerCache.FewResourcesForgetNothing | internal/controller/prediction.go:257-272 | With at most 128 resources that holds of every decision of every run |
| CacheLaws.Serve | internal/controller/prediction.go:247-274 | Over a whole run on one object, every slice ever handed out still shows what was answered then |
| Observation.DerivedRates | internal/observation/observation.go:29-64 | When the derived rates are usable; successes and errors add up; the ratio is in [0,1]; no traffic is not zero errors; the older timestamp wins |
| Observation.EffectiveCountIff | internal/observation/observation.go:112-125 | A count is accepted exactly when it is a usable whole number of Ready replicas |
| Analyzer.CollectSaturated | internal/capacity/analyzer.go:56-67 | The first incomplete dependency, or the names of all saturated ones |
| Analyzer.CollectRoots | internal/capacity/analyzer.go:91-107 | The root candidates, in order |
| Analyzer.Analyze | internal/capacity/analyzer.go:38-179 | The staged analysis is the specified classification |
| Analyzer.NoRootMeansCycle | internal/capacity/analyzer.go:91-107 | Saturation without a root candidate implies a DependsOn cycle |
| Analyzer.SingleRootExplainsAll | internal/capacity/analyzer.go:91-111 | Without cycles, every saturated dependency reaches the single candidate through saturated ones only |
| Analyzer.AttributionIsJustified | internal/capacity/analyzer.go:91-166 | What an attribution means: latency above the SLO, hottest replica below the safe occupancy, component saturated, not explained by what it depends on, and the end of every saturated chain |
| Analyzer.UnexplainedViolation | internal/capacity/analyzer.go:91-169 | When a violated SLO with complete telemetry is left unexplained |
| Analyzer.ComponentAndConfidence | internal/capacity/analyzer.go:69-166 | The component and the confidence of every verdict |
| VerdictLaws.HottestIff | internal/controller/optiscaler_controller.go:70-77 | When the hottest replica is known to hold h slots: by its own metric, or zero of them when nothing serves and nothing is held |
| VerdictLaws.HealthyIff | internal/capacity/analyzer.go:38-76 | For a validated specification, from the readings: healthy exactly when nothing is missing and the latency is within the SLO |
| VerdictLaws.TargetSaturatedIff | internal/capacity/analyzer.go:69-90 | Target saturated exactly when nothing is missing, the latency exceeds the SLO and the hottest replica holds at least limit times margin slots |
| VerdictLaws.DependencyNamedIff | internal/capacity/analyzer.go:91-166 | Dependency k named, as saturated or as blocking, exactly when nothing is missing, the latency exceeds the SLO, the target is below that share, and k is the only root candidate |
| Analyzer.AnalysisIsOrderIndependent | internal/capacity/analyzer.go:56-166 | Reordering dependencies keeps classification and confidence, and the component unless UNCERTAIN |
| AttributionCycles.CyclicIffUnattributable | internal/capacity/analyzer.go:91-107 | The configured graph has a cycle exactly when some telemetry saturates a dependency and leaves no root candidate |
| AttributionCycles.CycleHidesTheBottleneck | internal/capacity/analyzer.go:91-169 | With a cycle, some telemetry leaves a violated SLO unexplained although a dependency is saturated |
| ConfiguredCycles.CyclicSpecIffNoRoot | internal/controller/optiscaler_controller.go:608-649 | A validated specification has a DependsOn cycle exactly when some answers for its dependencies leave one saturated and no root candidate |
| Policy.StepUpRaisesIffNoOverflow | internal/policy/policy.go:234-237 | A step is a raise by at most the step within the maximum exactly when the addition fits in 32 bits |
| Policy.StepUpIs | internal/policy/policy.go:234-237 | The step in numbers, wrap-around included, and when it moves nothing |
| Policy.OverflowLowersReplicas | internal/policy/policy.go:234-249 | A concrete decision that asks for a negative count |
| Policy.CapacityDecision | internal/policy/policy.go:165-250 | Exactly when a reactive decision scales, which component and to what |
| Policy.ActionTable | internal/policy/policy.go:165-249 | The action of every decision by verdict, both ways: PROTECTED_MODE for uncertain verdicts and inconsistent components, HOLD for what is blocked, cooling down, healthy or at its maximum |
| Policy.UnscaledDecision | internal/policy/policy.go:165-241 | Which component a decision that does not scale is about, and that it asks for what is there |
| Policy.CapacityRaises | internal/policy/policy.go:192-250 | A scaling decision is outside the cooldown, and a bounded raise exactly without overflow |
| Policy.PrescaleDecision | internal/policy/policy.go:92-161 | Exactly when a prescale replaces a healthy hold; otherwise the reactive decision stands |
| Readiness.CurrentTargetTemplateRevision | internal/controller/prediction.go:325-356 | Succeeds exactly when every matching ReplicaSet, and at least one, agrees on one consistent revision |
| Readiness.RegularContainersHaveNeverRestarted | internal/controller/prediction.go:384-399 | True exactly when there are containers and the last status of each says zero restarts |
| Readiness.CountReady | internal/controller/prediction.go:289-297 | Counts the Ready pods that are not being deleted, wrapping at 32 bits |
| Readiness.MeasureStartup | internal/controller/prediction.go:305-321 | The loop keeps the longest eligible startup, the later one among equals, and counts the eligible pods |
| Readiness.TargetReadiness | internal/controller/prediction.go:276-323 | The whole observation: Ready count, revision, longest startup, sample count, or an error |
| Readiness.LongestIsMaximal | internal/controller/prediction.go:305-321 | The kept startup is one of an eligible pod and no eligible pod's is longer |
| Readiness.ReadinessIsOrderIndependent | internal/controller/prediction.go:276-356 | Neither the order of pods nor that of ReplicaSets matters |
| Readiness.PersistThenResolve | internal/controller/prediction.go:406-454 | A lead that was used comes back from the status for the same revision, and never for another |
| Readiness.EvidenceIsForCurrentRevision | internal/controller/prediction.go:406-445 | Available evidence belongs to the identified revision, is not negative, and only a fresh one is persisted |
| ReadinessLaws.RevisionIff | internal/controller/prediction.go:325-365 | The revision in terms of the fields of Deployment and ReplicaSets |
| ReadinessLaws.LongestStartIff | internal/controller/prediction.go:305-399 | The startup that is measured in terms of the fields of the pods |
| ReadinessLaws.ObservationIff | internal/controller/prediction.go:276-323 | The whole observation in terms of the lists: when it fails, how many pods are Ready, which revision, which startup |
| Prediction.LearnableIff | internal/controller/prediction.go:479-522 | Exactly when capacity is learned from an observation |
| Prediction.CollectRejections | internal/controller/prediction.go:169-211 | The accumulated rejection reason, in order |
| Prediction.Decide | internal/controller/prediction.go:163-229 | Forecast, estimate, rejections and policy, staged as specified |
| Prediction.NoRejections | internal/controller/prediction.go:151-211 | When nothing at all has been rejected |
| Prediction.NoRejectionOpensEveryGate | internal/controller/prediction.go:204-229 | An empty rejection reason already implies every boolean gate of the policy |
| Prediction.PrescaleIff | internal/controller/prediction.go:92-230 | PRESCALE_TARGET exactly under a plain conjunction over the inputs, with forecast above efficiency times slots times margin times Ready replicas |
| Prediction.LeadIff | internal/controller/prediction.go:406-445 | Which lead time is in hand, from the observation and the learned triple |
| Prediction.AcceptedObservation | internal/controller/prediction.go:151-208 | An accepted prediction rests on a learnable observation, every requested replica Ready and serving, and evidence of the current revision |
| Prediction.AcceptedForecast | internal/controller/prediction.go:147-230 | Its horizon is lead plus 15s plus half the window, within a fitted span of at most 120s, and the forecast exceeds efficiency times slots times margin for every Ready replica |
| PrescaleLaws.EfficiencyIsLearned | internal/controller/prediction.go:479-522 | From the readings: capacity is learned exactly from steady operation, as successes per second and held slot at the older of the two timestamps |
| PrescaleLaws.PrescaleDecidedIff | internal/controller/optiscaler_controller.go:143-152 | From specification, status, readings and stored histories: exactly when the decision before the guard is to prescale |
| PrescaleRun.FifthReconcilePrescales | internal/controller/optiscaler_controller.go:417-456 | A run from an empty cache and a new status: four reconciles write nothing, the fifth prescales from 2 to 4 replicas |
| Prediction.EvaluatePrediction | internal/controller/prediction.go:92-245 | The method reads readiness, updates the shared cache and decides as specified |
| Spec.ValidateDependencies | internal/controller/optiscaler_controller.go:608-638 | The first loop accepts exactly unique, individually valid dependencies and collects their names |
| Spec.ValidateMain | internal/controller/optiscaler_controller.go:549-607 | Everything but the dependencies |
| Spec.ValidateDependency | internal/controller/optiscaler_controller.go:610-637 | One dependency, given the names seen so far |
| Spec.ValidateReferences | internal/controller/optiscaler_controller.go:639-649 | Every reference is empty, or to another configured dependency |
| Spec.ValidateSpec | internal/controller/optiscaler_controller.go:548-651 | Validation succeeds exactly for valid specifications |
| SpecLaws.AcceptedIff | internal/controller/optiscaler_controller.go:548-651 | Exactly which specifications are accepted, field by field and by position, with the limits written out |
| Spec.ScalarPathUnreachable | internal/controller/optiscaler_controller.go:454-456 | A validated specification always takes the capacity path, so the scaling-down policy is unreachable |
| Spec.TwoCyclesAreAccepted | internal/controller/optiscaler_controller.go:639-649 | Two valid dependencies stay valid when made to depend on each other |
| Spec.SharedWorkloadIsAccepted | internal/controller/optiscaler_controller.go:608-638 | Two valid dependencies stay valid when the second is moved to the workload of the first |
| Controller.ReadDependencies | internal/controller/optiscaler_controller.go:100-124 | The loop fills the observations, the component map and the scale entries |
| Controller.DecideCapacity | internal/controller/optiscaler_controller.go:59-152 | The decision, the learned triple and the cache after one capacity reconcile |
| Controller.Apply | internal/controller/optiscaler_controller.go:248-279 | The one write and the status that is stored, for every outcome of the two updates |
| Controller.ReconcileCapacity | internal/controller/optiscaler_controller.go:59-280 | Decision, write, stored status and cache of one capacity reconcile |
| Controller.Reconcile | internal/controller/optiscaler_controller.go:417-456 | One reconcile: the cache, the stored status and the write are the specified ones |
| WriteLaws.ReactiveTargetIff | internal/policy/policy.go:165-250 | From the readings: exactly when the reactive decision scales the target, and to what |
| WriteLaws.ReactiveDependencyIff | internal/policy/policy.go:165-250 | From the readings: exactly when it scales dependency k, and to what |
| ReconcileLaws.WriteIff | internal/controller/optiscaler_controller.go:59-280 | From specification, status, readings and stored histories to the write and back: a reconcile that can read writes exactly what is due, for a saturated target, a demand that outgrows it, or the one saturated root dependency |
| ReconcileLaws.FiguresExist | internal/controller/optiscaler_controller.go:59-152 | Margin, efficiency and safe capacity that WriteIff asks for exist for every reconcile |
| ReconcileLaws.StatusIs | internal/controller/optiscaler_controller.go:248-279 | The stored status: the time of a write that went through and what was learned, or the old one after a failed write or update |
| ReconcileLaws.LearnedIs | internal/controller/prediction.go:447-454 | A measured startup replaces the learned triple, none leaves it |
| ReconcileLaws.NothingLearned | internal/controller/prediction.go:447-454 | When nothing can be learned |
| ReconcileLaws.CacheIs | internal/controller/prediction.go:108-165 | What the cache is told: the demand of now, and the efficiency of steady operation |
| ReconcileLaws.UnreadableChangesNothing | internal/controller/optiscaler_controller.go:417-452 | Without a valid specification or a readable cluster nothing is written, stored or cached |
| ControllerLaws.PolicyUnderstandsAnalysis | internal/policy/policy.go:175-233 | For a validated specification the inconsistent policy branches are unreachable |
| ControllerLaws.ObservedGraphIsConfigured | internal/controller/optiscaler_controller.go:608-638 | For a validated specification the graph the analyzer reads has unique names and valid thresholds, whatever is measured |
| ControllerLaws.OneWriteIsSafe | internal/controller/optiscaler_controller.go:248-258 | A write comes from a valid specification outside its cooldown, and is a raise within the bounds of the component it was decided for exactly without overflow |
| ControllerLaws.SafeForItsWorkload | internal/controller/optiscaler_controller.go:608-638 | When no two dependencies share a workload, a write safe for its component is within the bounds of every component configured on the written workload |
| SharedWorkloadExample.SharedWorkloadPassesABound | internal/controller/optiscaler_controller.go:59-280 | A complete reconcile of a valid specification whose write is safe for one dependency and above the maximum of another on the same Deployment |
| ControllerLaws.ActionFollowsVerdict | internal/controller/optiscaler_controller.go:126-141 | Target scaling follows a saturated target, dependency scaling the dependency the analysis names |
| ControllerLaws.BottleneckIsWritten | internal/controller/optiscaler_controller.go:158-159 | The scale object written is that of the bottleneck, with the count it was read with |
| ControllerLaws.GuardOnlyHolds | internal/controller/optiscaler_controller.go:324-334 | The realization guard only turns a scaling into a hold |
| ReconcileLaws.GuardedDecision | internal/controller/optiscaler_controller.go:324-334 | With a known serving count, exactly which decisions the guard holds, and what it asks for then |
| ControllerLaws.TargetScalingIsRealized | internal/controller/optiscaler_controller.go:314-334 | Scaling the target means all Ready replicas, at least one, serve; a prescale also means all requested ones are Ready |
| ControllerRuns.RunStep | internal/controller/optiscaler_controller.go:417-456 | Running the program extends a run of the model by one step |
| ControllerRuns.RunsOnlyRaise | internal/controller/optiscaler_controller.go:248-258 | In every run each write raises its component by 1..maxScaleUpStep inside that component's bounds, exactly without overflow |
| ControllerRuns.WritesAreCooldownApart | internal/policy/policy.go:130-196 | Any two writes of one resource, to whichever workloads, are at least the cooldown apart if the status write after the earlier one succeeded |
| ControllerRuns.LeadTimeProvenance | internal/controller/prediction.go:406-454 | Every lead time used in a run was measured then or earlier, as the longest startup of exactly the revision current now |
| ClosedLoop.SaturationReachesMaximum | internal/policy/policy.go:229-249 | A target that stays saturated, reconciled a cooldown apart with its writes going through, is written exactly while start + i*step is below max: ceil((max-start)/step) writes, each to the next level, then none |
| Counting.RecordDuration | cmd/demo-app/main.go:51-55 | The loop increments every bucket whose boundary the duration does not exceed, and no other |
| DemoProtocol.Tell | cmd/demo-app/main.go:126-178 | The telemetry object changes at each step as the protocol says |
| DemoProtocol.NextInv | cmd/demo-app/main.go:126-178 | Channel, gauges, totals and buckets stay exact sums over the requests, the channel within its capacity, and every reading and duration in the order of the handler |
| DemoClock.NumbersMeasure | cmd/demo-app/main.go:126-178 | In every run each number of a request is the clock between the two steps it is named after; the duration runs from the arrival, queueing included |
| DemoClock.FailureHasCause | cmd/demo-app/main.go:128-166 | A request fails exactly if it came as a failure or its call to the inventory went wrong |
| DemoLaws.SlotSecondsBound | cmd/demo-app/main.go:131-142 | Credited, running and measured but uncredited slot time stay within capacity times elapsed time |
| DemoLaws.WindowBound | cmd/demo-app/main.go:86-93 | Over a window the counter moves by at most capacity times the window plus what was already held |
| DemoWindows.WindowAccount | cmd/demo-app/main.go:86-93 | Over any window the counter moves by the slot time held in it, plus what was open at its start, less what is open at its end; the held part is at most capacity times the window |
| DemoWindows.EveryWindowFitsIffNothingOpen | cmd/demo-app/main.go:86-93 | From a given state, every window moves the counter by at most capacity times its length exactly when no slot time is held or measured but uncredited in that state |
| DemoWindows.CounterJumps | cmd/demo-app/main.go:137-142 | For one slot and any d, a run from the start after which one step, taking no time, moves the counter from 0 to d |
| DemoLaws.GaugesAreExact | cmd/demo-app/main.go:58-93 | The slots gauge is channel less uncounted acquisitions plus undiscounted releases; active, waiters and work are exact; work stays within the channel |
| DemoLaws.SlotsGaugeIsUnbounded | cmd/demo-app/main.go:137-142 | For every capacity of at least one and every n, a run from the start after which the gauge is n and no slot is held |
| DemoLaws.Quiescence | cmd/demo-app/main.go:126-178 | When all requests are done every gauge is zero, totals and buckets count exactly the requests, and the durations cover queue and slot time |
| DemoProgress.EveryRunCanComeToRest | cmd/demo-app/main.go:126-166 | With at least one slot there is no deadlock and no leaked slot: from every reachable state all requests can be finished, and then everything is quiet |
| DemoProgress.SendBlocksIffFull | cmd/demo-app/main.go:133-134 | A request that wants a slot gets it exactly while fewer than the capacity are held |
| DemoLaws.BucketsAreCumulative | cmd/demo-app/main.go:51-55 | Buckets are cumulative in every reachable state |
| Inventory.InventoryItems | cmd/inventory-service/main.go:118-138 | All skus in order, or nothing if the query, a scan or the iteration failed |
| InventoryProtocol.Tell | cmd/inventory-service/main.go:140-172 | The telemetry object changes at each step as the protocol says |
| InventoryProtocol.InvAlways | cmd/inventory-service/main.go:118-172 | In every interleaving channel, gauges and both histograms are exact sums over the requests |
| InventoryProtocol.BusyWithinCapacity | cmd/inventory-service/main.go:140-172 | Active work plus active database calls never exceed the channel, nor that its capacity |
| InventoryProtocol.Quiescence | cmd/inventory-service/main.go:118-172 | At rest all gauges are zero, each request that was not canceled made one database call, every cancellation and failed call is an error, and both histograms count what came |
| InventoryClock.DurationsMeasure | cmd/inventory-service/main.go:118-172 | In every run both durations are the clock between the steps they are named after |
| InventoryClock.DurationTotals | cmd/inventory-service/main.go:118-172 | At rest the duration sums are those of the requests and of the queries made, and the first covers the second |
| InventoryClock.FailureHasCause | cmd/inventory-service/main.go:140-172 | Canceled, failed query, failed request: each exactly if the step that settles it went wrong |
| InventoryProgress.EveryRunCanComeToRest | cmd/inventory-service/main.go:140-172 | With at least one slot there is no deadlock and no leaked slot: from every reachable state all requests can be finished, and then channel and gauges are zero |

## Left out

- IEEE rounding and overflow of intermediate results: finite arithmetic is exact, so the branches at lines 171, 194 and 287 of the forecaster for non-finite results do not occur.
- Integer widths of durations, counters and gauges (64 bits) and the truncation in `Duration` conversions; the persisted lead is the one place where truncation back to nanoseconds is modelled.
- WritesAreCooldownApart: takes the stored scale time to be exact; the API server keeps status times to the second, so in a cluster the separation can be up to a second shorter than the cooldown.
- PersistThenResolve: likewise takes the stored observation time to be exact; the lead itself is a number and is not rounded.
- Wording of reasons and evidence, decision records, conditions, events, log lines, and `currentReplicas`, `desiredReplicas` and `controlMode` of the status: no decision reads them.
- Kubernetes and Prometheus I/O, query text and the freshness test on query results: every reading is an arbitrary value, every read may fail, and the two writes succeed or fail as a whole.
- Stale informer reads: a reconcile reads the status the last one stored.
- Status as an object: the reconciler copies the status struct, so it is a value here; persisting evidence is a function on it.
- The mutex around the cache and telemetry: each method is one atomic step.
- The scalar policy, except that validated specifications never reach it; `MeanSlotOccupancy`, which no decision uses.
- The HTTP handlers other than the two with a semaphore, panics inside them, and the timing of sleeps and timeouts: the environment decides how long each step takes and whether it fails.
- Go's sort and map iteration: sorting is an insertion sort on values, iteration takes keys in any order.
- CRD manifests, generated code, dashboards, load tests, scripts and SQL.
