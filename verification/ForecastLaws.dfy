// What a forecast means: optimality of the fit, the shape of its quality
// gates, and the laws a forecast obeys.
module ForecastLaws {
  import opened Values
  import opened Samples
  import opened Regression
  import opened Forecast

  // A history the forecaster actually fits: every gate passed.
  predicate Fits(samples: seq<Sample>, now: int, horizon: int) {
    Gate(samples, now, horizon).None?
  }

  function FitPoints(samples: seq<Sample>): seq<Point> {
    var fit := FitWindow(samples);
    if |fit| == 0 then [] else Points(fit[0].timestamp, fit)
  }

  function Span(samples: seq<Sample>): int {
    var fit := FitWindow(samples);
    if |fit| == 0 then 0 else Last(fit).timestamp - fit[0].timestamp
  }

  // ----- What the gates guarantee -----

  lemma {:induction false} GapsIncrease(fit: seq<Sample>, i: nat, j: nat)
    requires ValidGaps(fit)
    requires i < j < |fit|
    ensures fit[i].timestamp < fit[j].timestamp
  {
    assert fit[j - 1].timestamp < fit[j].timestamp;
    if i < j - 1 {
      GapsIncrease(fit, i, j - 1);
    }
  }

  lemma FitWindowEnds(samples: seq<Sample>)
    requires |samples| > 0
    ensures var fit := FitWindow(samples);
      |fit| > 0 && Last(fit) == Last(samples) && Last(samples).timestamp - fit[0].timestamp <= TREND_FIT_WINDOW
  {
    var fit := FitWindow(samples);
    assert Last(fit) == Last(samples);
    assert fit[0] in fit;
    FilterMember(samples, NotBefore(Last(samples).timestamp - TREND_FIT_WINDOW), fit[0]);
  }

  lemma SoundWindow(fit: seq<Sample>)
    requires Defect(fit).None?
    ensures Increasing(fit)
    ensures UsableSamples(fit) && ValidGaps(fit)
  {
    NoDefect(fit);
    forall i, j | 0 <= i < j < |fit|
      ensures fit[i].timestamp < fit[j].timestamp
    {
      GapsIncrease(fit, i, j);
    }
  }

  // Every gate before the fit, but for the samples themselves.
  lemma GateIff(samples: seq<Sample>, now: int, horizon: int)
    ensures var fit := FitWindow(samples);
      Fits(samples, now, horizon) <==>
        && horizon > 0 && 0 < |samples| <= 20 && Last(samples).timestamp != 0
        && |fit| >= 5 && fit[0].timestamp != 0 && Last(fit).timestamp != 0 && Defect(fit).None?
        && Last(fit).timestamp - fit[0].timestamp >= 60 * SECOND && horizon <= Last(fit).timestamp - fit[0].timestamp
        && -30 * SECOND <= now - Last(fit).timestamp <= 45 * SECOND
  {
  }

  // The fit window of a fitted history: at least five usable samples in strictly
  // increasing time order, no gap above 45s, covering between 60s and 120s, no
  // shorter than the horizon.
  lemma FitWindowFacts(samples: seq<Sample>, now: int, horizon: int)
    requires Fits(samples, now, horizon)
    ensures |samples| > 0
    ensures var fit := FitWindow(samples);
      && |fit| >= 5 && Increasing(fit) && Last(fit) == Last(samples)
      && (forall s :: s in fit ==> s.value.Finite? && s.value.v >= 0.0 && s.timestamp != 0)
      && (forall i, j :: 0 <= i < j < |fit| && j == i + 1 ==> 0 < fit[j].timestamp - fit[i].timestamp <= 45 * SECOND)
    ensures 60 * SECOND <= Span(samples) <= 120 * SECOND && 0 < horizon <= Span(samples)
    ensures -30 * SECOND <= now - Last(samples).timestamp <= 45 * SECOND
  {
    GateIff(samples, now, horizon);
    FitWindowEnds(samples);
    SoundWindow(FitWindow(samples));
  }

  // What lets a window through, in numbers: five usable samples in order, no gap
  // above 45 seconds, a minute and the horizon covered, and the latest sample
  // neither older than 45 seconds nor more than 30 seconds ahead.
  ghost predicate CleanWindow(fit: seq<Sample>, now: int, horizon: int) {
    && |fit| >= 5
    && (forall s :: s in fit ==> s.value.Finite? && s.value.v >= 0.0 && s.timestamp != 0)
    && (forall i, j :: 0 <= i < j < |fit| && j == i + 1 ==> 0 < fit[j].timestamp - fit[i].timestamp <= 45 * SECOND)
    && 60 * SECOND <= Last(fit).timestamp - fit[0].timestamp && 0 < horizon <= Last(fit).timestamp - fit[0].timestamp
    && -30 * SECOND <= now - Last(fit).timestamp <= 45 * SECOND
  }

  // A history of at most 20 samples is fitted exactly when its window is clean.
  lemma FittedIff(samples: seq<Sample>, now: int, horizon: int)
    ensures Fits(samples, now, horizon) <==> |samples| <= 20 && CleanWindow(FitWindow(samples), now, horizon)
  {
    var fit := FitWindow(samples);
    GateIff(samples, now, horizon);
    NoDefect(fit);
    if |samples| > 0 {
      FitWindowEnds(samples);
    }
    if |fit| > 0 {
      assert fit[0] in fit && Last(fit) in fit;
    }
  }

  // The fit window of a stored history is its part from sample k on, the first one
  // within 120 seconds of the latest.
  predicate StartsAt(samples: seq<Sample>, k: nat) {
    && k < |samples|
    && forall i :: 0 <= i < |samples| ==> (k <= i <==> samples[i].timestamp >= Last(samples).timestamp - 120 * SECOND)
  }

  lemma {:induction false} RecentIsSuffix(samples: seq<Sample>, cutoff: int) returns (k: nat)
    requires Increasing(samples)
    ensures k <= |samples| && Filter(samples, NotBefore(cutoff)) == samples[k..]
    ensures forall i :: 0 <= i < |samples| ==> (k <= i <==> samples[i].timestamp >= cutoff)
  {
    if |samples| == 0 {
      k := 0;
    } else if Last(samples).timestamp < cutoff {
      k := |samples|;
      FilterNothing(samples, NotBefore(cutoff));
    } else {
      var front := samples[..|samples| - 1];
      k := RecentIsSuffix(front, cutoff);
      assert forall i :: 0 <= i < |front| ==> front[i] == samples[i];
      assert samples[k..] == front[k..] + [Last(samples)];
    }
  }

  lemma WindowIsSuffix(samples: seq<Sample>) returns (k: nat)
    requires |samples| > 0 && Increasing(samples)
    ensures StartsAt(samples, k) && FitWindow(samples) == samples[k..]
  {
    k := RecentIsSuffix(samples, Last(samples).timestamp - TREND_FIT_WINDOW);
  }

  lemma OneStart(samples: seq<Sample>, k: nat, l: nat)
    requires StartsAt(samples, k) && StartsAt(samples, l)
    ensures k == l
  {
    assert k <= k <==> samples[k].timestamp >= Last(samples).timestamp - 120 * SECOND;
    assert l <= l <==> samples[l].timestamp >= Last(samples).timestamp - 120 * SECOND;
  }

  // For the histories the cache stores: fitted exactly when the samples of the
  // last 120 seconds are clean.
  lemma HistoryFittedIff(samples: seq<Sample>, now: int, horizon: int, k: nat)
    requires Increasing(samples) && StartsAt(samples, k)
    ensures Fits(samples, now, horizon) <==> |samples| <= 20 && CleanWindow(samples[k..], now, horizon)
  {
    FittedIff(samples, now, horizon);
    var k' := WindowIsSuffix(samples);
    OneStart(samples, k, k');
  }

  // Whether a history was fitted shows in the reason of the result.
  lemma ReasonShowsFit(samples: seq<Sample>, now: int, horizon: int)
    ensures Fits(samples, now, horizon) <==>
      Predict(samples, now, horizon).reason
        in {FlatTrend, FlatOrFalling, NegativeForecast, NotHighQuality, HighQualityTrend}
  {
    if !Fits(samples, now, horizon) {
      GateReasons(samples, now, horizon);
    }
  }

  // Which gate stops a forecast: the first that fails, in this order; the result is
  // LOW with every number zero but the samples and the span of the window.
  lemma StopsAt(samples: seq<Sample>, now: int, horizon: int)
    ensures var fit, result := FitWindow(samples), Predict(samples, now, horizon);
      var span := if |fit| > 0 then Last(fit).timestamp - fit[0].timestamp else 0;
      && (horizon <= 0 ==> result == LowResult(0, 0, HorizonNotPositive))
      && (horizon > 0 && |samples| > 20 ==> result == LowResult(0, 0, TooManySamples))
      && (horizon > 0 && |samples| == 0 ==> result == LowResult(0, 0, NoSamples))
      && (horizon > 0 && 0 < |samples| <= 20 ==>
          && |fit| > 0
          && var dated := Last(fit).timestamp != 0 && fit[0].timestamp != 0;
            && (Last(samples).timestamp == 0 ==> result == LowResult(0, 0, MissingTimestamp))
            && (Last(samples).timestamp != 0 && !dated ==> result == LowResult(|fit|, 0, MissingTimestamp))
            && (dated && |fit| < 5 ==> result == LowResult(|fit|, span, TooFewRecent))
            && (dated && |fit| >= 5 && span < 60 * SECOND ==> result == LowResult(|fit|, span, SpanTooShort))
            && (dated && |fit| >= 5 && span >= 60 * SECOND && span < horizon ==>
                result == LowResult(|fit|, span, HorizonExceedsSpan)))
  {
    if |samples| > 0 {
      FitWindowEnds(samples);
    }
  }

  lemma GateReasons(samples: seq<Sample>, now: int, horizon: int)
    requires Gate(samples, now, horizon).Some?
    ensures Gate(samples, now, horizon).value.reason
      !in {FlatTrend, FlatOrFalling, NegativeForecast, NotHighQuality, HighQualityTrend}
  {
    DefectReasons(FitWindow(samples));
  }

  lemma {:induction false} DefectReasons(fit: seq<Sample>)
    ensures Defect(fit).Some? ==> Defect(fit).value in {InvalidObservation, BadGap}
  {
    if |fit| > 0 {
      DefectReasons(fit[..|fit| - 1]);
    }
  }

  // Abscissae run from 0 to the span; ordinates are not negative.
  lemma FitPointFacts(samples: seq<Sample>, now: int, horizon: int)
    requires Fits(samples, now, horizon)
    ensures var ps := FitPoints(samples);
      && |ps| >= MINIMUM_SAMPLES && ps[0].x == 0.0 && ps[|ps| - 1].x == Seconds(Span(samples)) > 0.0
      && (forall p :: p in ps ==> 0.0 <= p.x <= Seconds(Span(samples)) && p.y >= 0.0)
      && VarianceX(ps, MeanX(ps)) > 0.0
  {
    FitWindowFacts(samples, now, horizon);
    var fit, ps := FitWindow(samples), FitPoints(samples);
    forall p | p in ps
      ensures 0.0 <= p.x <= Seconds(Span(samples)) && p.y >= 0.0
    {
      var i :| 0 <= i < |ps| && ps[i] == p;
      assert fit[i] in fit;
    }
    VarianceXPositive(ps, MeanX(ps), 0, |ps| - 1);
  }

  // ----- Least squares -----

  // For every history that passes the gates, no line y = a + b*x has a smaller
  // residual sum of squares than the computed one, and no other line ties with
  // it. The division by varianceX is always defined.
  lemma FitIsLeastSquares(samples: seq<Sample>, now: int, horizon: int, a: real, b: real)
    requires Fits(samples, now, horizon)
    ensures var ps := FitPoints(samples); var result := Predict(samples, now, horizon);
      && VarianceX(ps, MeanX(ps)) > 0.0
      && (result.hasTrend ==> result.slope == Slope(ps))
      && ResidualSquares(ps, Intercept(ps), Slope(ps)) <= ResidualSquares(ps, a, b)
      && (ResidualSquares(ps, Intercept(ps), Slope(ps)) == ResidualSquares(ps, a, b) ==>
        a == Intercept(ps) && b == Slope(ps))
  {
    FitPointFacts(samples, now, horizon);
    FittedIsOptimal(FitPoints(samples), a, b);
  }

  // ----- Quality numbers -----

  // 0 <= residual <= varianceY, and what the fit explains is cov^2/varX.
  lemma Explained(residual: real, varX: real, varY: real, cov: real, slope: real)
    requires varX > 0.0 && slope == cov / varX && residual == varY - slope * cov
    ensures residual <= varY && varX * residual == varX * varY - cov * cov
  {
    DivideBack(cov, varX);
    SquareSign(slope);
    ProductSign(varX, slope * slope);
    assert slope * cov == slope * (slope * varX);
    assert slope * (slope * varX) == varX * (slope * slope);
    assert varX * (slope * cov) == cov * cov;
    Distribute(varX, residual, varY, -(slope * cov));
  }

  lemma RatioBounds(residual: real, varX: real, varY: real, cov: real)
    requires 0.0 <= residual <= varY && varY > 0.0 && varX > 0.0 && varX * residual == varX * varY - cov * cov
    ensures 0.0 <= residual / varY <= 1.0
    ensures residual / varY == 0.0 <==> residual == 0.0
    ensures (1.0 - residual / varY) * (varX * varY) == cov * cov
  {
    DivideBack(residual, varY);
    var t := residual / varY;
    SignOfProduct(t, varY);
    SignOfProduct(1.0 - t, varY);
    assert (1.0 - t) * varY == varY - t * varY;
    assert (1.0 - t) * (varX * varY) == varX * varY - varX * (t * varY);
  }

  lemma PointNumbers(ps: seq<Point>) returns (residual: real, varX: real, varY: real, cov: real, range: real)
    requires |ps| > 0 && VarianceX(ps, MeanX(ps)) > 0.0
    ensures varX == VarianceX(ps, MeanX(ps)) && varY == VarianceY(ps, MeanY(ps)) >= 0.0
    ensures cov == Covariance(ps, MeanX(ps), MeanY(ps)) && range == MaxY(ps) - MinY(ps)
    ensures residual == ResidualSquares(ps, Intercept(ps), Slope(ps))
    ensures 0.0 <= residual <= varY && varX * residual == varX * varY - cov * cov
    ensures varY <= |ps| as real * (range * range / 4.0)
  {
    residual, varX := ResidualSquares(ps, Intercept(ps), Slope(ps)), VarianceX(ps, MeanX(ps));
    varY, cov := VarianceY(ps, MeanY(ps)), Covariance(ps, MeanX(ps), MeanY(ps));
    range := MaxY(ps) - MinY(ps);
    VarianceYNonnegative(ps, MeanY(ps));
    FittedResidual(ps);
    ResidualNonnegative(ps, Intercept(ps), Slope(ps));
    Explained(residual, varX, varY, cov, Slope(ps));
    VarianceAtMostRange(ps, range);
  }

  lemma RisingLine(ps: seq<Point>, span: int, horizon: int)
    returns (slope: real, intercept: real, varY: real, range: real)
    requires |ps| > 0 && VarianceX(ps, MeanX(ps)) > 0.0
    requires FitLine(ps, span, horizon).hasTrend && FitLine(ps, span, horizon).slope > 0.0
    ensures slope == Slope(ps) && intercept == Intercept(ps) && slope > 0.0
    ensures varY == VarianceY(ps, MeanY(ps)) && range == MaxY(ps) - MinY(ps) && varY != 0.0 && range != 0.0
    ensures FitLine(ps, span, horizon) == UseLine(ps, span, horizon, slope, intercept, varY, range)
  {
    slope, intercept, varY, range := Slope(ps), Intercept(ps), VarianceY(ps, MeanY(ps)), MaxY(ps) - MinY(ps);
  }

  // Every number of a graded line, from the sums behind it.
  lemma GradeNumbers(n: nat, span: int, horizon: int, slope: real, intercept: real, residual: real, varX: real,
      varY: real, cov: real, range: real)
    returns (result: Result)
    requires n > 0 && varX > 0.0 && varY > 0.0 && range != 0.0
    requires 0.0 <= residual <= varY && varX * residual == varX * varY - cov * cov
      && varY <= n as real * (range * range / 4.0)
    ensures result == GradeLine(n, span, horizon, slope, intercept, residual, varY, range)
    ensures result.r2 == 1.0 - residual / varY && 0.0 <= result.r2 <= 1.0 && (result.r2 == 1.0 <==> residual == 0.0)
    ensures result.r2 * (varX * varY) == cov * cov
    ensures 0.0 <= result.nrmseSquared <= (1.0 - result.r2) / 4.0
    ensures result.rate == intercept + slope * (Seconds(span) + Seconds(horizon))
      && (result.hasRate <==> result.rate >= 0.0)
    ensures result.quality == if result.hasRate then Grade(result.r2, result.nrmseSquared) else Low
  {
    result := GradeLine(n, span, horizon, slope, intercept, residual, varY, range);
    RatioBounds(residual, varX, varY, cov);
    NormalizedAtMostQuarter(residual, varY, n, range);
  }

  lemma RisingResult(ps: seq<Point>, span: int, horizon: int)
    returns (result: Result, slope: real, intercept: real, residual: real, varX: real, varY: real, cov: real)
    requires |ps| > 0 && VarianceX(ps, MeanX(ps)) > 0.0
    requires FitLine(ps, span, horizon).hasTrend && FitLine(ps, span, horizon).slope > 0.0
    ensures result == FitLine(ps, span, horizon) && slope == Slope(ps) && intercept == Intercept(ps) && slope > 0.0
    ensures varX == VarianceX(ps, MeanX(ps)) && varY == VarianceY(ps, MeanY(ps)) && varY > 0.0
    ensures cov == Covariance(ps, MeanX(ps), MeanY(ps)) && residual == ResidualSquares(ps, intercept, slope)
    ensures result.r2 == 1.0 - residual / varY && 0.0 <= result.r2 <= 1.0 && (result.r2 == 1.0 <==> residual == 0.0)
    ensures result.r2 * (varX * varY) == cov * cov
    ensures 0.0 <= result.nrmseSquared <= (1.0 - result.r2) / 4.0
    ensures result.rate == intercept + slope * (Seconds(span) + Seconds(horizon))
      && (result.hasRate <==> result.rate >= 0.0)
    ensures result.quality == if result.hasRate then Grade(result.r2, result.nrmseSquared) else Low
  {
    var range, range', varY';
    residual, varX, varY, cov, range := PointNumbers(ps);
    slope, intercept, varY', range' := RisingLine(ps, span, horizon);
    result := GradeNumbers(|ps|, span, horizon, slope, intercept, residual, varX, varY, cov, range);
  }

  ghost predicate Collinear(ps: seq<Point>) {
    exists a: real, b: real :: AllOnLine(ps, a, b)
  }

  predicate AllOnLine(ps: seq<Point>, a: real, b: real) {
    forall p :: p in ps ==> OnLine(p, a, b)
  }

  // R^2 is the squared correlation cov^2/(varX*varY): it is 1 - residual/varianceY
  // without the clamp at zero ever firing, and it lies in [0,1].
  lemma RSquaredIsCorrelation(samples: seq<Sample>, now: int, horizon: int)
    returns (r2: real, ps: seq<Point>, residual: real, varX: real, varY: real, cov: real)
    requires Predict(samples, now, horizon).hasFit
    ensures r2 == Predict(samples, now, horizon).r2 && Fits(samples, now, horizon) && ps == FitPoints(samples)
      && |ps| > 0
    ensures varX == VarianceX(ps, MeanX(ps)) && varY == VarianceY(ps, MeanY(ps))
      && cov == Covariance(ps, MeanX(ps), MeanY(ps))
    ensures varX > 0.0 && varY > 0.0 && residual == ResidualSquares(ps, Intercept(ps), Slope(ps))
    ensures 0.0 <= r2 <= 1.0 && r2 == 1.0 - residual / varY && r2 * (varX * varY) == cov * cov
  {
    HasFitMeansRising(samples, now, horizon);
    FitPointFacts(samples, now, horizon);
    ps := FitPoints(samples);
    var result, slope, intercept;
    result, slope, intercept, residual, varX, varY, cov := RisingResult(ps, Span(samples), horizon);
    r2 := result.r2;
  }

  // R^2 is 1 exactly when the fitted samples are collinear.
  lemma RSquaredIsOneIffCollinear(samples: seq<Sample>, now: int, horizon: int)
    requires Predict(samples, now, horizon).hasFit
    ensures Predict(samples, now, horizon).r2 == 1.0 <==> Collinear(FitPoints(samples))
  {
    HasFitMeansRising(samples, now, horizon);
    FitPointFacts(samples, now, horizon);
    var ps := FitPoints(samples);
    var result, slope, intercept, residual, varX, varY, cov := RisingResult(ps, Span(samples), horizon);
    CollinearIffNoResidual(ps, slope, intercept);
  }

  lemma HasFitMeansRising(samples: seq<Sample>, now: int, horizon: int)
    requires Predict(samples, now, horizon).hasFit
    ensures Predict(samples, now, horizon).hasTrend && Predict(samples, now, horizon).slope > 0.0
  {
  }

  lemma CollinearIffNoResidual(ps: seq<Point>, slope: real, intercept: real)
    requires |ps| > 0 && VarianceX(ps, MeanX(ps)) > 0.0 && slope == Slope(ps) && intercept == Intercept(ps)
    ensures Collinear(ps) <==> ResidualSquares(ps, intercept, slope) == 0.0
  {
    ResidualNonnegative(ps, intercept, slope);
    if Collinear(ps) {
      var a: real, b: real :| AllOnLine(ps, a, b);
      ResidualNonnegative(ps, a, b);
      FittedIsOptimal(ps, a, b);
    } else {
      assert !AllOnLine(ps, intercept, slope);
    }
  }

  // residual/(n*range^2) lies in [0, (residual/varY)/4] whenever varY <= n*range^2/4.
  lemma NormalizedAtMostQuarter(residual: real, varY: real, n: nat, range: real)
    requires residual >= 0.0 && varY > 0.0 && n > 0 && range != 0.0 && varY <= n as real * (range * range / 4.0)
    ensures 0.0 <= NormalizedSquare(residual, n, range) <= residual / varY / 4.0
  {
    var m, t, q := n as real, residual / varY, NormalizedSquare(residual, n, range);
    var w := m * (range * range);
    DivideBack(residual, varY);
    SignOfProduct(t, varY);
    NormalizedTimes(residual, n, range, w);
    SquareSign(range);
    SignOfProduct(range * range, m);
    SignOfProduct(q, w);
    ProductMonotone(t, varY, w / 4.0);
    CancelFactor(q, t / 4.0, w);
  }

  lemma NormalizedTimes(residual: real, n: nat, range: real, w: real)
    requires n > 0 && range != 0.0 && w == n as real * (range * range)
    ensures NormalizedSquare(residual, n, range) * w == residual
  {
    var m := n as real;
    var q1 := residual / m;
    var q2 := q1 / range;
    DivideBack(residual, m);
    DivideBack(q1, range);
    DivideBack(q2, range);
    assert q2 / range * w == m * (q2 / range * range * range);
  }

  lemma UsedLineError(ps: seq<Point>, span: int, horizon: int, slope: real, intercept: real, varY: real, range: real)
    requires |ps| > 0 && varY != 0.0 && range != 0.0 && slope > 0.0
    ensures UseLine(ps, span, horizon, slope, intercept, varY, range).nrmseSquared
      == NormalizedSquare(ResidualSquares(ps, intercept, slope), |ps|, range)
  {
  }

  // The squared error of a graded line.
  lemma ErrorOfLine(ps: seq<Point>, span: int, horizon: int) returns (residual: real, range: real)
    requires |ps| > 0 && VarianceX(ps, MeanX(ps)) > 0.0
    requires FitLine(ps, span, horizon).hasTrend && FitLine(ps, span, horizon).slope > 0.0
    ensures range == MaxY(ps) - MinY(ps) && range != 0.0
    ensures residual == ResidualSquares(ps, Intercept(ps), Slope(ps))
    ensures FitLine(ps, span, horizon).nrmseSquared == NormalizedSquare(residual, |ps|, range)
  {
    var slope, intercept, varY;
    slope, intercept, varY, range := RisingLine(ps, span, horizon);
    residual := ResidualSquares(ps, intercept, slope);
    UsedLineError(ps, span, horizon, slope, intercept, varY, range);
  }

  lemma UsedLineRate(ps: seq<Point>, span: int, horizon: int, slope: real, intercept: real, varY: real, range: real,
      at: real)
    returns (rate: real)
    requires |ps| > 0 && varY != 0.0 && range != 0.0 && slope > 0.0 && at == Seconds(span) + Seconds(horizon)
    ensures rate == UseLine(ps, span, horizon, slope, intercept, varY, range).rate
    ensures rate == intercept + slope * at
  {
    rate := intercept + slope * at;
  }

  lemma FitLineRate(ps: seq<Point>, span: int, horizon: int, at: real) returns (rate: real, a: real, b: real)
    requires |ps| > 0 && VarianceX(ps, MeanX(ps)) > 0.0 && at == Seconds(span) + Seconds(horizon)
    requires FitLine(ps, span, horizon).hasTrend && FitLine(ps, span, horizon).slope > 0.0
    ensures rate == FitLine(ps, span, horizon).rate && a == Intercept(ps) && b == Slope(ps)
    ensures rate == a + b * at
  {
    var varY, range;
    b, a, varY, range := RisingLine(ps, span, horizon);
    rate := UsedLineRate(ps, span, horizon, b, a, varY, range, at);
  }

  // The forecast is the value of the fitted line one horizon after the last sample.
  lemma RateIsOnLine(samples: seq<Sample>, now: int, horizon: int, at: real)
    returns (rate: real, ps: seq<Point>, a: real, b: real)
    requires Predict(samples, now, horizon).hasFit && at == Seconds(Span(samples)) + Seconds(horizon)
    ensures rate == Predict(samples, now, horizon).rate && ps == FitPoints(samples)
    ensures |ps| > 0 && VarianceX(ps, MeanX(ps)) > 0.0 && a == Intercept(ps) && b == Slope(ps)
    ensures rate == a + b * at
  {
    ps := RisingFit(samples, now, horizon);
    rate, a, b := FitLineRate(ps, Span(samples), horizon, at);
  }

  lemma RisingFit(samples: seq<Sample>, now: int, horizon: int) returns (ps: seq<Point>)
    requires Predict(samples, now, horizon).hasFit
    ensures ps == FitPoints(samples) && |ps| > 0 && VarianceX(ps, MeanX(ps)) > 0.0
    ensures Predict(samples, now, horizon) == FitLine(ps, Span(samples), horizon)
    ensures var result := FitLine(ps, Span(samples), horizon); result.hasTrend && result.slope > 0.0 && result.hasRate
  {
    HasFitMeansRising(samples, now, horizon);
    ResultFlags(samples, now, horizon);
    FitPointFacts(samples, now, horizon);
    ps := FitPoints(samples);
  }

  // The squared normalized RMSE: the mean squared residual of the fitted line over
  // the squared range of the samples (NormalizedTimes says the same as a product).
  lemma NormalizedError(samples: seq<Sample>, now: int, horizon: int)
    returns (ps: seq<Point>, residual: real, range: real)
    requires Predict(samples, now, horizon).hasFit
    ensures ps == FitPoints(samples) && |ps| > 0 && VarianceX(ps, MeanX(ps)) > 0.0
    ensures residual == ResidualSquares(ps, Intercept(ps), Slope(ps)) && range == MaxY(ps) - MinY(ps) && range != 0.0
    ensures Predict(samples, now, horizon).nrmseSquared == residual / |ps| as real / range / range
  {
    ps := RisingFit(samples, now, horizon);
    residual, range := ErrorOfLine(ps, Span(samples), horizon);
  }

  // Quality gates: NormalizedRMSE^2 <= (1 - R^2)/4 for every fit. A forecast
  // with a request rate is therefore HIGH or MEDIUM exactly when R^2 >= 0.85,
  // and R^2 >= 0.96 alone makes it HIGH: the RMSE gate of MEDIUM never decides,
  // and that of HIGH decides only for R^2 in [0.95, 0.96).
  lemma QualityGates(samples: seq<Sample>, now: int, horizon: int)
    requires Predict(samples, now, horizon).hasFit
    ensures var result := Predict(samples, now, horizon);
      && 0.0 <= result.nrmseSquared <= (1.0 - result.r2) / 4.0
      && (result.hasRate ==> (result.quality != Low <==> result.r2 >= 0.85))
      && (result.hasRate && result.r2 >= 0.96 ==> result.quality == High)
      && (result.quality == High ==> result.r2 >= 0.95 && result.nrmseSquared <= 0.01)
      && (result.hasRate && result.r2 >= 0.95 && result.nrmseSquared <= 0.01 ==> result.quality == High)
  {
    HasFitMeansRising(samples, now, horizon);
    FitPointFacts(samples, now, horizon);
    var result, slope, intercept, residual, varX, varY, cov := RisingResult(FitPoints(samples), Span(samples), horizon);
  }

  // ----- The forecast value -----

  lemma MeanXAtMost(ps: seq<Point>, bound: real)
    requires |ps| > 0 && forall p :: p in ps ==> p.x <= bound
    ensures MeanX(ps) <= bound
  {
    var below, zero := (p: Point) => bound - p.x, (p: Point) => 0.0;
    TotalZeroIff(ps, below);
    TotalLinear(ps, below, -1.0, AtX(), 0.0, zero, 0.0, zero, 0.0, zero, 0.0, zero, bound);
    DivideBack(SumX(ps), |ps| as real);
    QuotientAtMost(SumX(ps), |ps| as real, bound);
  }

  lemma QuotientAtMost(sum: real, n: real, bound: real)
    requires n > 0.0 && sum <= n * bound
    ensures sum / n <= bound
  {
    var mean := sum / n;
    DivideBack(sum, n);
    CancelFactor(mean, bound, n);
  }

  lemma MeanYAtLeastZero(ps: seq<Point>)
    requires |ps| > 0 && forall p :: p in ps ==> p.y >= 0.0
    ensures MeanY(ps) >= 0.0
  {
    TotalZeroIff(ps, AtY());
    DivideBack(SumY(ps), |ps| as real);
    SignOfProduct(MeanY(ps), |ps| as real);
  }

  lemma LineAboveMean(slope: real, intercept: real, meanX: real, meanY: real, at: real)
    requires slope > 0.0 && meanX < at && intercept == meanY - slope * meanX
    ensures intercept + slope * at > meanY
  {
    ProductSign(slope, at - meanX);
    assert slope * (at - meanX) == slope * at - slope * meanX;
  }

  lemma ExtrapolationAboveMean(ps: seq<Point>, slope: real, intercept: real, bound: real, at: real)
    returns (meanY: real)
    requires |ps| > 0 && VarianceX(ps, MeanX(ps)) != 0.0 && slope == Slope(ps) && slope > 0.0
      && intercept == Intercept(ps)
    requires bound < at && forall p :: p in ps ==> p.x <= bound && p.y >= 0.0
    ensures meanY == MeanY(ps) && intercept + slope * at > meanY >= 0.0
  {
    meanY := MeanY(ps);
    MeanXAtMost(ps, bound);
    MeanYAtLeastZero(ps);
    LineAboveMean(slope, intercept, MeanX(ps), meanY, at);
  }

  lemma RisingRate(ps: seq<Point>, span: int, horizon: int) returns (meanY: real)
    requires |ps| > 0 && VarianceX(ps, MeanX(ps)) > 0.0 && horizon > 0
    requires forall p :: p in ps ==> p.x <= Seconds(span) && p.y >= 0.0
    requires FitLine(ps, span, horizon).hasTrend && FitLine(ps, span, horizon).slope > 0.0
    ensures meanY == MeanY(ps) >= 0.0
    ensures FitLine(ps, span, horizon).rate > meanY && FitLine(ps, span, horizon).hasRate
      && FitLine(ps, span, horizon).hasFit
  {
    var result, slope, intercept, residual, varX, varY, cov := RisingResult(ps, span, horizon);
    var at := Seconds(span) + Seconds(horizon);
    meanY := ExtrapolationAboveMean(ps, slope, intercept, Seconds(span), at);
    assert result.rate == intercept + slope * at;
  }

  // A rising trend always yields a request rate, above the mean of its window:
  // the "negative forecast" branch cannot be reached.
  lemma RisingForecastIsAboveMean(samples: seq<Sample>, now: int, horizon: int) returns (meanY: real)
    requires Predict(samples, now, horizon).hasTrend && Predict(samples, now, horizon).slope > 0.0
    ensures |FitPoints(samples)| > 0 && meanY == MeanY(FitPoints(samples)) >= 0.0
    ensures Predict(samples, now, horizon).rate > meanY
    ensures Predict(samples, now, horizon).hasRate && Predict(samples, now, horizon).hasFit
  {
    FitPointFacts(samples, now, horizon);
    FitWindowFacts(samples, now, horizon);
    meanY := RisingRate(FitPoints(samples), Span(samples), horizon);
  }

  // The flags move together: a result has a request rate exactly when its trend
  // is rising, exactly when it has a fit; only such a result is HIGH or MEDIUM.
  lemma ResultFlags(samples: seq<Sample>, now: int, horizon: int)
    ensures var result := Predict(samples, now, horizon);
      && (result.hasRate <==> result.hasTrend && result.slope > 0.0)
      && (result.hasFit <==> result.hasRate)
      && (result.quality != Low ==> result.hasRate && result.rate > 0.0 && Fits(samples, now, horizon))
  {
    var result := Predict(samples, now, horizon);
    if result.hasTrend && result.slope > 0.0 {
      var meanY := RisingForecastIsAboveMean(samples, now, horizon);
    }
  }

  // Collinear rising samples that pass the gates give a HIGH forecast with the
  // exactly extrapolated value.
  lemma CollinearExtrapolates(samples: seq<Sample>, now: int, horizon: int, a: real, b: real)
    requires Fits(samples, now, horizon) && b > 0.0 && AllOnLine(FitPoints(samples), a, b)
    ensures var result := Predict(samples, now, horizon);
      && result.quality == High && result.slope == b && result.r2 == 1.0 && result.nrmseSquared == 0.0
      && result.rate == a + b * (Seconds(Span(samples)) + Seconds(horizon))
  {
    FitPointFacts(samples, now, horizon);
    var ps := FitPoints(samples);
    LineRises(ps, a, b);
    var slope, intercept := LineIsFit(ps, a, b);
    assert Predict(samples, now, horizon).hasTrend;
    var meanY := RisingForecastIsAboveMean(samples, now, horizon);
    var result, slope', intercept', residual, varX, varY, cov := RisingResult(ps, Span(samples), horizon);
    CollinearIffNoResidual(ps, slope', intercept');
  }

  lemma LineIsFit(ps: seq<Point>, a: real, b: real) returns (slope: real, intercept: real)
    requires |ps| > 0 && VarianceX(ps, MeanX(ps)) > 0.0 && AllOnLine(ps, a, b)
    ensures slope == Slope(ps) == b && intercept == Intercept(ps) == a
  {
    slope, intercept := Slope(ps), Intercept(ps);
    ResidualNonnegative(ps, a, b);
    ResidualNonnegative(ps, intercept, slope);
    FittedIsOptimal(ps, a, b);
  }

  lemma LineRises(ps: seq<Point>, a: real, b: real)
    requires |ps| > 0 && b > 0.0 && AllOnLine(ps, a, b) && ps[0].x < ps[|ps| - 1].x
    ensures VarianceY(ps, MeanY(ps)) > 0.0 && MaxY(ps) > MinY(ps)
  {
    var first, last := ps[0], ps[|ps| - 1];
    assert first in ps && last in ps;
    assert OnLine(first, a, b) && OnLine(last, a, b);
    ProductSign(b, last.x - first.x);
    assert b * (last.x - first.x) == b * last.x - b * first.x;
    ExtremesBound(ps);
    VarianceYPositive(ps, MeanY(ps), first, last);
  }

  lemma VarianceYPositive(ps: seq<Point>, my: real, p: Point, q: Point)
    requires p in ps && q in ps && p.y != q.y
    ensures VarianceY(ps, my) > 0.0
  {
    forall r: Point
      ensures AtYY(my)(r) >= 0.0 && (AtYY(my)(r) == 0.0 <==> r.y == my)
    {
      SquareSign(r.y - my);
    }
    TotalZeroIff(ps, AtYY(my));
  }
}
