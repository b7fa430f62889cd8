// Least-squares request-rate forecast (internal/forecast/model.go), in its
// order: gates, means, centred sums, line, residuals, quality.
module Forecast {
  import opened Values
  import opened Samples
  import opened Regression

  const TREND_FIT_WINDOW: int := 120 * SECOND
  const MINIMUM_SAMPLES: nat := 5
  const MINIMUM_SPAN: int := 60 * SECOND
  const MAXIMUM_SAMPLE_AGE: int := 45 * SECOND
  const MAXIMUM_SAMPLE_GAP: int := 45 * SECOND

  datatype Quality = High | Medium | Low

  datatype Reason =
    | HorizonNotPositive | TooManySamples | NoSamples | MissingTimestamp | TooFewRecent | SpanTooShort
    | HorizonExceedsSpan | StaleOrFuture | InvalidObservation | BadGap | FlatTrend | FlatOrFalling
    | NegativeForecast | NotHighQuality | HighQualityTrend

  // nrmseSquared is the square of the normalized RMSE: residual mean square
  // over the squared range.
  datatype Result = Result(rate: real, slope: real, r2: real, nrmseSquared: real, samples: nat, span: int,
                           quality: Quality, reason: Reason, hasTrend: bool, hasRate: bool, hasFit: bool)

  function LowResult(samples: nat, span: int, reason: Reason): Result {
    Result(0.0, 0.0, 0.0, 0.0, samples, span, Low, reason, false, false, false)
  }

  // ----- Specification -----

  function FitWindow(samples: seq<Sample>): seq<Sample> {
    if |samples| == 0 then []
    else Filter(samples, NotBefore(Last(samples).timestamp - TREND_FIT_WINDOW))
  }

  function NotBefore(cutoff: int): Sample -> bool {
    (s: Sample) => s.timestamp >= cutoff
  }

  // The first sample of the fit window that is unusable, if any.
  function Defect(fit: seq<Sample>): Option<Reason> {
    if |fit| == 0 then None
    else
      var before := Defect(fit[..|fit| - 1]);
      if before.Some? then before
      else if !FiniteNonnegative(Last(fit).value) || Last(fit).timestamp == ZERO_TIME then Some(InvalidObservation)
      else if |fit| > 1 && !GapValid(fit[|fit| - 2], Last(fit)) then Some(BadGap)
      else None
  }

  predicate GapValid(previous: Sample, sample: Sample) {
    0 < sample.timestamp - previous.timestamp <= MAXIMUM_SAMPLE_GAP
  }

  // Abscissa: seconds since the first sample of the window.
  function ToPoint(first: int, s: Sample): Point {
    Point(Seconds(s.timestamp - first), if s.value.Finite? then s.value.v else 0.0)
  }

  function Points(first: int, fit: seq<Sample>): seq<Point> {
    seq(|fit|, i requires 0 <= i < |fit| => ToPoint(first, fit[i]))
  }

  // Result of every gate before the fit: a final LOW result, or none.
  function Gate(samples: seq<Sample>, now: int, horizon: int): Option<Result> {
    if horizon <= 0 then Some(LowResult(0, 0, HorizonNotPositive))
    else if |samples| > MAX_SAMPLES then Some(LowResult(0, 0, TooManySamples))
    else if |samples| == 0 then Some(LowResult(0, 0, NoSamples))
    else if Last(samples).timestamp == ZERO_TIME then Some(LowResult(0, 0, MissingTimestamp))
    else
      var fit := FitWindow(samples);
      if |fit| == 0 then Some(LowResult(0, 0, TooFewRecent))
      else if fit[0].timestamp == ZERO_TIME || Last(fit).timestamp == ZERO_TIME
      then Some(LowResult(|fit|, 0, MissingTimestamp))
      else
        var span := Last(fit).timestamp - fit[0].timestamp;
        if |fit| < MINIMUM_SAMPLES then Some(LowResult(|fit|, span, TooFewRecent))
        else if span < MINIMUM_SPAN then Some(LowResult(|fit|, span, SpanTooShort))
        else if horizon > span then Some(LowResult(|fit|, span, HorizonExceedsSpan))
        else if Last(fit).timestamp > now + FUTURE_TOLERANCE || now - Last(fit).timestamp > MAXIMUM_SAMPLE_AGE then
          Some(LowResult(|fit|, span, StaleOrFuture))
        else if Defect(fit).Some? then Some(LowResult(|fit|, span, Defect(fit).value))
        else None
  }

  function Predict(samples: seq<Sample>, now: int, horizon: int): Result {
    var gate := Gate(samples, now, horizon);
    if gate.Some? then gate.value
    else
      var fit := FitWindow(samples);
      FitLine(Points(fit[0].timestamp, fit), Last(fit).timestamp - fit[0].timestamp, horizon)
  }

  function FitLine(ps: seq<Point>, span: int, horizon: int): Result
    requires |ps| > 0
  {
    if VarianceX(ps, MeanX(ps)) == 0.0 || VarianceY(ps, MeanY(ps)) == 0.0 || MaxY(ps) == MinY(ps) then
      LowResult(|ps|, span, FlatTrend)
    else
      UseLine(ps, span, horizon, Slope(ps), Intercept(ps), VarianceY(ps, MeanY(ps)), MaxY(ps) - MinY(ps))
  }

  function UseLine(ps: seq<Point>, span: int, horizon: int, slope: real, intercept: real, varianceY: real,
      range: real): Result
    requires |ps| > 0 && varianceY != 0.0 && range != 0.0
  {
    if slope <= 0.0 then LowResult(|ps|, span, FlatOrFalling).(slope := slope, hasTrend := true)
    else GradeLine(|ps|, span, horizon, slope, intercept, ResidualSquares(ps, intercept, slope), varianceY, range)
  }

  function GradeLine(n: nat, span: int, horizon: int, slope: real, intercept: real, residual: real, varianceY: real,
      range: real): Result
    requires n > 0 && varianceY != 0.0 && range != 0.0
  {
    var r2 := ClampedR2(residual, varianceY);
    var nrmseSquared := NormalizedSquare(residual, n, range);
    var rate := intercept + slope * (Seconds(span) + Seconds(horizon));
    var quality := Grade(r2, nrmseSquared);
    if rate < 0.0 then Result(rate, slope, r2, nrmseSquared, n, span, Low, NegativeForecast, true, false, true)
    else Result(rate, slope, r2, nrmseSquared, n, span, quality,
                if quality == High then HighQualityTrend else NotHighQuality, true, true, true)
  }

  function ClampedR2(residual: real, varianceY: real): real
    requires varianceY != 0.0
  {
    var r2 := 1.0 - residual / varianceY;
    if r2 < 0.0 then 0.0 else r2
  }

  function NormalizedSquare(residual: real, n: nat, range: real): real
    requires n > 0 && range != 0.0
  {
    residual / n as real / range / range
  }

  // 0.10 and 0.20 are compared as squares.
  function Grade(r2: real, nrmseSquared: real): Quality {
    if r2 >= 0.95 && nrmseSquared <= 0.01 then High
    else if r2 >= 0.85 && nrmseSquared <= 0.04 then Medium
    else Low
  }

  // ----- The computation -----

  lemma PointsPrefix(first: int, fit: seq<Sample>, i: nat)
    requires i < |fit|
    ensures Points(first, fit)[..i + 1] == Points(first, fit)[..i] + [ToPoint(first, fit[i])]
  {
  }

  // The two means.
  method Means(fit: seq<Sample>, first: int) returns (meanX: real, meanY: real)
    requires |fit| > 0 && forall s :: s in fit ==> s.value.Finite?
    ensures meanX == MeanX(Points(first, fit)) && meanY == MeanY(Points(first, fit))
  {
    ghost var ps := Points(first, fit);
    meanX, meanY := 0.0, 0.0;
    for i := 0 to |fit|
      invariant meanX == SumX(ps[..i]) && meanY == SumY(ps[..i])
    {
      PointsPrefix(first, fit, i);
      meanX := meanX + Seconds(fit[i].timestamp - first);
      meanY := meanY + fit[i].value.v;
    }
    assert ps[..|fit|] == ps;
    meanX, meanY := meanX / |fit| as real, meanY / |fit| as real;
  }

  function MinFloat(a: Float, y: real): Float {
    if a.PosInf? || (a.Finite? && y < a.v) then Finite(y) else a
  }

  function MaxFloat(a: Float, y: real): Float {
    if a.NegInf? || (a.Finite? && y > a.v) then Finite(y) else a
  }

  lemma OnePointMore(ps: seq<Point>, i: nat, mx: real, my: real)
    requires i < |ps|
    ensures Covariance(ps[..i + 1], mx, my) == Covariance(ps[..i], mx, my) + (ps[i].x - mx) * (ps[i].y - my)
    ensures VarianceX(ps[..i + 1], mx) == VarianceX(ps[..i], mx) + (ps[i].x - mx) * (ps[i].x - mx)
    ensures VarianceY(ps[..i + 1], my) == VarianceY(ps[..i], my) + (ps[i].y - my) * (ps[i].y - my)
    ensures ps[..i + 1][..i] == ps[..i]
  {
    assert ps[..i + 1][..i] == ps[..i];
  }

  // Centred sums and extremes, starting from the infinities.
  method CentredSums(fit: seq<Sample>, first: int, meanX: real, meanY: real)
    returns (covariance: real, varianceX: real, varianceY: real, minimum: real, maximum: real)
    requires |fit| > 0 && forall s :: s in fit ==> s.value.Finite?
    ensures var ps := Points(first, fit);
      && covariance == Covariance(ps, meanX, meanY) && varianceX == VarianceX(ps, meanX)
      && varianceY == VarianceY(ps, meanY)
      && minimum == MinY(ps) && maximum == MaxY(ps)
  {
    ghost var ps := Points(first, fit);
    covariance, varianceX, varianceY := 0.0, 0.0, 0.0;
    var low, high := PosInf, NegInf;
    for i := 0 to |fit|
      invariant covariance == Covariance(ps[..i], meanX, meanY)
      invariant varianceX == VarianceX(ps[..i], meanX) && varianceY == VarianceY(ps[..i], meanY)
      invariant i == 0 ==> low == PosInf && high == NegInf
      invariant i > 0 ==> low == Finite(MinY(ps[..i])) && high == Finite(MaxY(ps[..i]))
    {
      PointsPrefix(first, fit, i);
      var x := Seconds(fit[i].timestamp - first);
      var dx, dy := x - meanX, fit[i].value.v - meanY;
      covariance := covariance + dx * dy;
      varianceX := varianceX + dx * dx;
      varianceY := varianceY + dy * dy;
      low, high := MinFloat(low, fit[i].value.v), MaxFloat(high, fit[i].value.v);
      OnePointMore(ps, i, meanX, meanY);
    }
    assert ps[..|fit|] == ps;
    minimum, maximum := low.v, high.v;
  }

  // The residual sum of squares.
  method Residuals(fit: seq<Sample>, first: int, intercept: real, slope: real) returns (squares: real)
    requires forall s :: s in fit ==> s.value.Finite?
    ensures squares == ResidualSquares(Points(first, fit), intercept, slope)
  {
    ghost var ps := Points(first, fit);
    squares := 0.0;
    for i := 0 to |fit|
      invariant squares == ResidualSquares(ps[..i], intercept, slope)
    {
      PointsPrefix(first, fit, i);
      var x := Seconds(fit[i].timestamp - first);
      var residual := fit[i].value.v - (intercept + slope * x);
      squares := squares + residual * residual;
    }
    assert ps[..|fit|] == ps;
  }

  // The samples of the trailing fit window.
  method SelectFitWindow(samples: seq<Sample>) returns (fit: seq<Sample>)
    requires |samples| > 0
    ensures fit == FitWindow(samples)
  {
    var cutoff := Last(samples).timestamp - TREND_FIT_WINDOW;
    fit := [];
    for i := 0 to |samples|
      invariant fit == Filter(samples[..i], NotBefore(cutoff))
    {
      assert samples[..i + 1][..i] == samples[..i];
      if samples[i].timestamp >= cutoff {
        fit := fit + [samples[i]];
      }
    }
    assert samples[..|samples|] == samples;
  }

  // The first unusable sample or bad gap.
  method CheckSamples(fit: seq<Sample>) returns (defect: Option<Reason>)
    ensures defect == Defect(fit)
  {
    for i := 0 to |fit|
      invariant Defect(fit[..i]) == None
    {
      assert fit[..i + 1][..i] == fit[..i];
      if !FiniteNonnegative(fit[i].value) || fit[i].timestamp == ZERO_TIME {
        DefectPrefix(fit, i + 1);
        return Some(InvalidObservation);
      }
      if i > 0 {
        var gap := fit[i].timestamp - fit[i - 1].timestamp;
        if gap <= 0 || gap > MAXIMUM_SAMPLE_GAP {
          DefectPrefix(fit, i + 1);
          return Some(BadGap);
        }
      }
    }
    assert fit[..|fit|] == fit;
    return None;
  }

  lemma {:induction false} DefectPrefix(fit: seq<Sample>, k: nat)
    requires k <= |fit| && Defect(fit[..k]).Some?
    ensures Defect(fit) == Defect(fit[..k])
  {
    if k < |fit| {
      assert fit[..|fit| - 1][..k] == fit[..k];
      DefectPrefix(fit[..|fit| - 1], k);
    } else {
      assert fit[..k] == fit;
    }
  }

  predicate UsableSamples(fit: seq<Sample>) {
    forall s :: s in fit ==> s.value.Finite? && s.value.v >= 0.0 && s.timestamp != 0
  }

  // Every sample comes after the one before it, by at most 45 seconds.
  ghost predicate ValidGaps(fit: seq<Sample>) {
    forall i, j :: 0 <= i < j < |fit| && j == i + 1 ==> 0 < fit[j].timestamp - fit[i].timestamp <= 45 * SECOND
  }

  lemma OneMoreSample(front: seq<Sample>, last: Sample)
    ensures UsableSamples(front + [last]) <==>
      UsableSamples(front) && FiniteNonnegative(last.value) && last.timestamp != ZERO_TIME
    ensures ValidGaps(front + [last]) <==> ValidGaps(front) && (|front| > 0 ==> GapValid(Last(front), last))
  {
    var fit := front + [last];
    assert forall s :: s in fit <==> s in front || s == last;
    if ValidGaps(fit) {
      forall i, j | 0 <= i < j < |front| && j == i + 1
        ensures 0 < front[j].timestamp - front[i].timestamp <= 45 * SECOND
      {
        assert front[i] == fit[i] && front[j] == fit[j];
      }
      if |front| > 0 {
        assert Last(front) == fit[|front| - 1] && last == fit[|front|];
      }
    }
  }

  lemma DefectStep(fit: seq<Sample>)
    requires |fit| > 0
    ensures Defect(fit).None? <==>
      && Defect(fit[..|fit| - 1]).None? && FiniteNonnegative(Last(fit).value) && Last(fit).timestamp != ZERO_TIME
      && (|fit| > 1 ==> GapValid(fit[|fit| - 2], Last(fit)))
  {
  }

  lemma {:induction false} NoDefect(fit: seq<Sample>)
    ensures Defect(fit).None? <==> UsableSamples(fit) && ValidGaps(fit)
  {
    if |fit| > 0 {
      var front, last := fit[..|fit| - 1], Last(fit);
      NoDefect(front);
      DefectStep(fit);
      OneMoreSample(front, last);
      assert fit == front + [last];
      assert |front| > 0 ==> Last(front) == fit[|fit| - 2];
    }
  }

  // Every gate before the fit.
  method CheckGates(samples: seq<Sample>, now: int, horizon: int) returns (gate: Option<Result>, fit: seq<Sample>)
    ensures gate == Gate(samples, now, horizon)
    ensures gate.None? ==> |samples| > 0 && fit == FitWindow(samples) && |fit| > 0
    ensures gate.None? ==> forall s :: s in fit ==> s.value.Finite?
  {
    fit := [];
    var result := LowResult(0, 0, HorizonNotPositive);
    if horizon <= 0 {
      return Some(result), fit;
    }
    if |samples| > MAX_SAMPLES {
      return Some(result.(reason := TooManySamples)), fit;
    }
    if |samples| == 0 {
      return Some(result.(reason := NoSamples)), fit;
    }
    if Last(samples).timestamp == ZERO_TIME {
      return Some(result.(reason := MissingTimestamp)), fit;
    }
    fit := SelectFitWindow(samples);
    result := result.(samples := |fit|);
    if |fit| == 0 {
      return Some(result.(reason := TooFewRecent)), fit;
    }
    var first, last := fit[0].timestamp, Last(fit).timestamp;
    if first == ZERO_TIME || last == ZERO_TIME {
      return Some(result.(reason := MissingTimestamp)), fit;
    }
    result := result.(span := last - first);
    if |fit| < MINIMUM_SAMPLES {
      return Some(result.(reason := TooFewRecent)), fit;
    }
    if result.span < MINIMUM_SPAN {
      return Some(result.(reason := SpanTooShort)), fit;
    }
    if horizon > result.span {
      return Some(result.(reason := HorizonExceedsSpan)), fit;
    }
    if last > now + FUTURE_TOLERANCE || now - last > MAXIMUM_SAMPLE_AGE {
      return Some(result.(reason := StaleOrFuture)), fit;
    }
    var defect := CheckSamples(fit);
    if defect.Some? {
      return Some(result.(reason := defect.value)), fit;
    }
    NoDefect(fit);
    return None, fit;
  }

  method LinearForecast(samples: seq<Sample>, now: int, horizon: int) returns (result: Result)
    ensures result == Predict(samples, now, horizon)
  {
    var gate, fit := CheckGates(samples, now, horizon);
    if gate.Some? {
      return gate.value;
    }
    result := FitTrend(fit, Last(fit).timestamp - fit[0].timestamp, horizon);
  }

  // The fit, on a window that passed every gate.
  method FitTrend(fit: seq<Sample>, span: int, horizon: int) returns (result: Result)
    requires |fit| > 0 && forall s :: s in fit ==> s.value.Finite?
    ensures result == FitLine(Points(fit[0].timestamp, fit), span, horizon)
  {
    var first := fit[0].timestamp;
    ghost var ps := Points(first, fit);
    var meanX, meanY := Means(fit, first);
    var covariance, varianceX, varianceY, minimum, maximum := CentredSums(fit, first, meanX, meanY);
    if varianceX == 0.0 || varianceY == 0.0 || maximum == minimum {
      return LowResult(|fit|, span, FlatTrend);
    }
    var slope, intercept := Line(ps, covariance, varianceX, meanX, meanY);
    result := UseTrend(fit, span, horizon, slope, intercept, varianceY, maximum - minimum);
  }

  // Slope and intercept.
  method Line(ghost ps: seq<Point>, covariance: real, varianceX: real, meanX: real, meanY: real)
    returns (slope: real, intercept: real)
    requires |ps| > 0 && meanX == MeanX(ps) && meanY == MeanY(ps)
    requires covariance == Covariance(ps, meanX, meanY) && varianceX == VarianceX(ps, meanX) && varianceX != 0.0
    ensures slope == Slope(ps) && intercept == Intercept(ps)
  {
    slope := covariance / varianceX;
    intercept := meanY - slope * meanX;
  }

  // A rising line goes on to its residuals.
  method UseTrend(fit: seq<Sample>, span: int, horizon: int, slope: real, intercept: real, varianceY: real,
      range: real)
    returns (result: Result)
    requires |fit| > 0 && varianceY != 0.0 && range != 0.0 && forall s :: s in fit ==> s.value.Finite?
    ensures result == UseLine(Points(fit[0].timestamp, fit), span, horizon, slope, intercept, varianceY, range)
  {
    result := LowResult(|fit|, span, FlatOrFalling).(slope := slope, hasTrend := true);
    if slope <= 0.0 {
      return;
    }
    var residualSquares := Residuals(fit, fit[0].timestamp, intercept, slope);
    result := GradeFit(result, horizon, intercept, residualSquares, varianceY, range);
  }

  // Fit quality and extrapolation.
  method GradeFit(trend: Result, horizon: int, intercept: real, residualSquares: real, varianceY: real, range: real)
    returns (result: Result)
    requires trend.samples > 0 && varianceY != 0.0 && range != 0.0
    requires trend == LowResult(trend.samples, trend.span, FlatOrFalling).(slope := trend.slope, hasTrend := true)
    ensures result
      == GradeLine(trend.samples, trend.span, horizon, trend.slope, intercept, residualSquares, varianceY, range)
  {
    result := trend.(r2 := 1.0 - residualSquares / varianceY);
    if result.r2 < 0.0 {
      result := result.(r2 := 0.0);
    }
    var nrmseSquared := residualSquares / trend.samples as real / range / range;
    result := result.(nrmseSquared := nrmseSquared, hasFit := true);
    var forecastAt := Seconds(trend.span) + Seconds(horizon);
    result := GradeRate(result, intercept + trend.slope * forecastAt);
  }

  // Flags, quality and reason, once the numbers are known.
  function Graded(fit: Result, rate: real): Result {
    var quality := Grade(fit.r2, fit.nrmseSquared);
    if rate < 0.0 then fit.(rate := rate, reason := NegativeForecast)
    else
      var reason := if quality == High then HighQualityTrend else NotHighQuality;
      fit.(rate := rate, hasRate := true, quality := quality, reason := reason)
  }

  method GradeRate(fit: Result, rate: real) returns (result: Result)
    ensures result == Graded(fit, rate)
  {
    result := fit.(rate := rate);
    if result.rate < 0.0 {
      result := result.(reason := NegativeForecast);
      return;
    }
    result := result.(hasRate := true);
    if result.r2 >= 0.95 && result.nrmseSquared <= 0.01 {
      result := result.(quality := High);
    } else if result.r2 >= 0.85 && result.nrmseSquared <= 0.04 {
      result := result.(quality := Medium);
    } else {
      result := result.(quality := Low);
    }
    if result.quality != High {
      result := result.(reason := NotHighQuality);
      return;
    }
    result := result.(reason := HighQualityTrend);
  }
}
