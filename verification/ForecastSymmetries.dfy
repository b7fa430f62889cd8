// How a forecast reacts to a change of clock or of unit, and what the R^2 gate
// alone cannot decide.
module ForecastSymmetries {
  import opened Values
  import opened Samples
  import opened Regression
  import opened Forecast
  import opened ForecastLaws

  // ----- Shifting the clock -----

  function Shift(samples: seq<Sample>, delta: int): seq<Sample> {
    seq(|samples|, i requires 0 <= i < |samples| => samples[i].(timestamp := samples[i].timestamp + delta))
  }

  // Neither history uses the zero instant, which means "missing".
  predicate Dated(samples: seq<Sample>, delta: int) {
    forall s :: s in samples ==> s.timestamp != ZERO_TIME && s.timestamp + delta != ZERO_TIME
  }

  lemma {:induction false} FilterShift(samples: seq<Sample>, delta: int, cutoff: int)
    ensures Filter(Shift(samples, delta), NotBefore(cutoff + delta)) == Shift(Filter(samples, NotBefore(cutoff)), delta)
  {
    if |samples| > 0 {
      var front := samples[..|samples| - 1];
      FilterShift(front, delta, cutoff);
      assert Shift(samples, delta)[..|samples| - 1] == Shift(front, delta);
    }
  }

  lemma {:induction false} DefectShift(fit: seq<Sample>, delta: int)
    requires Dated(fit, delta)
    ensures Defect(Shift(fit, delta)) == Defect(fit)
  {
    if |fit| > 0 {
      var front := fit[..|fit| - 1];
      assert forall s :: s in front ==> s in fit;
      DefectShift(front, delta);
      assert Shift(fit, delta)[..|fit| - 1] == Shift(front, delta);
      assert Last(fit) in fit;
    }
  }

  lemma WindowShift(samples: seq<Sample>, delta: int)
    requires |samples| > 0
    ensures |FitWindow(samples)| > 0 && FitWindow(Shift(samples, delta)) == Shift(FitWindow(samples), delta)
    ensures FitPoints(Shift(samples, delta)) == FitPoints(samples) && Span(Shift(samples, delta)) == Span(samples)
  {
    FilterShift(samples, delta, Last(samples).timestamp - TREND_FIT_WINDOW);
    FitWindowEnds(samples);
  }

  lemma GateShift(samples: seq<Sample>, now: int, horizon: int, delta: int)
    requires Dated(samples, delta)
    ensures Gate(Shift(samples, delta), now + delta, horizon) == Gate(samples, now, horizon)
  {
    if |samples| > 0 {
      WindowShift(samples, delta);
      var fit := FitWindow(samples);
      forall s | s in fit
        ensures s in samples
      {
        FilterMember(samples, NotBefore(Last(samples).timestamp - TREND_FIT_WINDOW), s);
      }
      DefectShift(fit, delta);
      assert fit[0] in fit && Last(fit) in fit && Last(samples) in samples;
    }
  }

  // Only differences of instants matter: moving every timestamp and the clock by
  // the same amount changes nothing in the result.
  lemma ForecastIsClockInvariant(samples: seq<Sample>, now: int, horizon: int, delta: int)
    requires Dated(samples, delta)
    ensures Predict(Shift(samples, delta), now + delta, horizon) == Predict(samples, now, horizon)
  {
    GateShift(samples, now, horizon, delta);
    if |samples| > 0 {
      WindowShift(samples, delta);
      PredictIsFitLine(samples, now, horizon);
      PredictIsFitLine(Shift(samples, delta), now + delta, horizon);
    }
  }

  lemma PredictIsFitLine(samples: seq<Sample>, now: int, horizon: int)
    requires |samples| > 0
    ensures |FitPoints(samples)| > 0
    ensures Predict(samples, now, horizon) ==
      if Gate(samples, now, horizon).Some? then Gate(samples, now, horizon).value
      else FitLine(FitPoints(samples), Span(samples), horizon)
  {
    FitWindowEnds(samples);
  }

  // ----- Changing the unit of the rates -----

  function ScaleFloat(f: Float, c: real): Float {
    if f.Finite? then Finite(c * f.v) else f
  }

  function Rescale(samples: seq<Sample>, c: real): seq<Sample> {
    seq(|samples|, i requires 0 <= i < |samples| => samples[i].(value := ScaleFloat(samples[i].value, c)))
  }

  function ScalePoint(p: Point, c: real): Point {
    p.(y := c * p.y)
  }

  function ScalePoints(ps: seq<Point>, c: real): seq<Point> {
    seq(|ps|, i requires 0 <= i < |ps| => ScalePoint(ps[i], c))
  }

  // The forecast and the slope carry the unit; R^2, RMSE and quality do not.
  function RescaleResult(r: Result, c: real): Result {
    r.(slope := c * r.slope, rate := c * r.rate)
  }

  lemma {:induction false} FilterRescale(samples: seq<Sample>, c: real, cutoff: int)
    ensures Filter(Rescale(samples, c), NotBefore(cutoff)) == Rescale(Filter(samples, NotBefore(cutoff)), c)
  {
    if |samples| > 0 {
      var front := samples[..|samples| - 1];
      FilterRescale(front, c, cutoff);
      assert Rescale(samples, c)[..|samples| - 1] == Rescale(front, c);
    }
  }

  lemma {:induction false} DefectRescale(fit: seq<Sample>, c: real)
    requires c > 0.0
    ensures Defect(Rescale(fit, c)) == Defect(fit)
  {
    if |fit| > 0 {
      var front := fit[..|fit| - 1];
      DefectRescale(front, c);
      assert Rescale(fit, c)[..|fit| - 1] == Rescale(front, c);
      if Last(fit).value.Finite? {
        SignOfProduct(Last(fit).value.v, c);
        assert c * Last(fit).value.v == Last(fit).value.v * c;
      }
    }
  }

  // Rescaling a point by c rescales its summand by k.
  ghost predicate ScalesBy(f: Point -> real, g: Point -> real, c: real, k: real) {
    forall p {:trigger ScalePoint(p, c)} :: f(ScalePoint(p, c)) == k * g(p)
  }

  // A total over rescaled points, when each summand is rescaled by k.
  lemma {:induction false} TotalRescaled(ps: seq<Point>, c: real, f: Point -> real, g: Point -> real, k: real)
    requires ScalesBy(f, g, c, k)
    ensures Total(ScalePoints(ps, c), f) == k * Total(ps, g)
  {
    if |ps| > 0 {
      var front, p := ps[..|ps| - 1], ps[|ps| - 1];
      TotalRescaled(front, c, f, g, k);
      assert ScalePoints(ps, c)[..|ps| - 1] == ScalePoints(front, c);
      Distribute(k, Total(ps, g), Total(front, g), g(p));
    }
  }

  lemma LastScaled(ps: seq<Point>, c: real) returns (w: real)
    requires |ps| > 0
    ensures ScalePoints(ps, c)[..|ps| - 1] == ScalePoints(ps[..|ps| - 1], c) && ScalePoints(ps, c)[|ps| - 1].y == w
    ensures w == c * ps[|ps| - 1].y
  {
    w := c * ps[|ps| - 1].y;
  }

  lemma LowerScaled(y: real, low: real, w: real, low': real, c: real) returns (m: real, m': real)
    requires c > 0.0 && w == c * y && low' == c * low
    ensures m == (if y < low then y else low) && m' == (if w < low' then w else low') && m' == c * m
  {
    OrderScaled(y, low, c);
    m, m' := if y < low then y else low, if w < low' then w else low';
  }

  lemma HigherScaled(y: real, high: real, w: real, high': real, c: real) returns (m: real, m': real)
    requires c > 0.0 && w == c * y && high' == c * high
    ensures m == (if y > high then y else high) && m' == (if w > high' then w else high') && m' == c * m
  {
    OrderScaled(high, y, c);
    m, m' := if y > high then y else high, if w > high' then w else high';
  }

  lemma {:induction false} MinYRescaled(ps: seq<Point>, c: real) returns (m: real, m': real)
    requires |ps| > 0 && c > 0.0
    ensures m == MinY(ps) && m' == MinY(ScalePoints(ps, c)) && m' == c * m
  {
    var y := ps[|ps| - 1].y;
    var w := LastScaled(ps, c);
    if |ps| == 1 {
      m, m' := y, w;
    } else {
      var low, low' := MinYRescaled(ps[..|ps| - 1], c);
      m, m' := LowerScaled(y, low, w, low', c);
    }
  }

  lemma {:induction false} MaxYRescaled(ps: seq<Point>, c: real) returns (m: real, m': real)
    requires |ps| > 0 && c > 0.0
    ensures m == MaxY(ps) && m' == MaxY(ScalePoints(ps, c)) && m' == c * m
  {
    var y := ps[|ps| - 1].y;
    var w := LastScaled(ps, c);
    if |ps| == 1 {
      m, m' := y, w;
    } else {
      var high, high' := MaxYRescaled(ps[..|ps| - 1], c);
      m, m' := HigherScaled(y, high, w, high', c);
    }
  }

  lemma OrderScaled(a: real, b: real, c: real)
    requires c > 0.0
    ensures c * a < c * b <==> a < b
  {
    SignOfProduct(a - b, c);
    assert (a - b) * c == c * a - c * b;
  }

  lemma SumsXYRescaled(ps: seq<Point>, c: real)
    ensures SumX(ScalePoints(ps, c)) == SumX(ps)
    ensures SumY(ScalePoints(ps, c)) == c * SumY(ps)
  {
    TotalRescaled(ps, c, AtX(), AtX(), 1.0);
    TotalRescaled(ps, c, AtY(), AtY(), c);
  }

  lemma MeansRescaled(ps: seq<Point>, c: real) returns (mx: real, my: real, my': real)
    requires |ps| > 0
    ensures mx == MeanX(ps) && mx == MeanX(ScalePoints(ps, c))
    ensures my == MeanY(ps) && my' == MeanY(ScalePoints(ps, c)) && my' == c * my
  {
    mx, my, my' := MeanX(ps), MeanY(ps), MeanY(ScalePoints(ps, c));
    SumsXYRescaled(ps, c);
    QuotientScaled(SumY(ps), |ps| as real, c);
  }

  lemma QuotientScaled(a: real, n: real, c: real)
    requires n != 0.0
    ensures (c * a) / n == c * (a / n)
  {
    var q := a / n;
    DivideBack(a, n);
    assert (c * q) * n == c * a;
    CancelQuotient(c * a, n, c * q);
  }

  lemma CancelQuotient(a: real, n: real, q: real)
    requires n != 0.0 && q * n == a
    ensures a / n == q
  {
  }

  lemma ProductScaled(u: real, v: real, v': real, c: real)
    requires v' == c * v
    ensures u * v' == c * (u * v)
  {
  }

  lemma SquareScaled(v: real, v': real, c: real, k: real)
    requires v' == c * v && k == c * c
    ensures v' * v' == k * (v * v)
  {
  }

  lemma CovarianceRescaled(ps: seq<Point>, c: real, mx: real, my: real, my': real)
    requires my' == c * my
    ensures Covariance(ScalePoints(ps, c), mx, my') == c * Covariance(ps, mx, my)
  {
    forall p: Point {:trigger ScalePoint(p, c)}
      ensures AtXY(mx, my')(ScalePoint(p, c)) == c * AtXY(mx, my)(p)
    {
      CovarianceAtScaled(p, c, mx, my, my');
    }
    TotalRescaled(ps, c, AtXY(mx, my'), AtXY(mx, my), c);
  }

  lemma CovarianceAtScaled(p: Point, c: real, mx: real, my: real, my': real)
    requires my' == c * my
    ensures AtXY(mx, my')(ScalePoint(p, c)) == c * AtXY(mx, my)(p)
  {
    var u, w, w' := p.x - mx, p.y - my, c * p.y - my';
    DeviationScaled(p.y, my, my', c);
    ProductScaled(u, w, w', c);
    assert AtXY(mx, my')(ScalePoint(p, c)) == u * w';
  }

  lemma VarianceXRescaled(ps: seq<Point>, c: real, mx: real)
    ensures VarianceX(ScalePoints(ps, c), mx) == VarianceX(ps, mx)
  {
    TotalRescaled(ps, c, AtXX(mx), AtXX(mx), 1.0);
  }

  lemma VarianceYRescaled(ps: seq<Point>, c: real, k: real, my: real, my': real)
    requires my' == c * my && k == c * c
    ensures VarianceY(ScalePoints(ps, c), my') == k * VarianceY(ps, my)
  {
    forall p: Point {:trigger ScalePoint(p, c)}
      ensures AtYY(my')(ScalePoint(p, c)) == k * AtYY(my)(p)
    {
      VarianceAtScaled(p, c, k, my, my');
    }
    TotalRescaled(ps, c, AtYY(my'), AtYY(my), k);
  }

  lemma VarianceAtScaled(p: Point, c: real, k: real, my: real, my': real)
    requires my' == c * my && k == c * c
    ensures AtYY(my')(ScalePoint(p, c)) == k * AtYY(my)(p)
  {
    var w, w' := p.y - my, c * p.y - my';
    DeviationScaled(p.y, my, my', c);
    SquareScaled(w, w', c, k);
    assert AtYY(my')(ScalePoint(p, c)) == w' * w';
  }

  lemma DeviationScaled(y: real, my: real, my': real, c: real)
    requires my' == c * my
    ensures c * y - my' == c * (y - my)
  {
  }

  lemma ResidualScales(c: real, k: real, a: real, b: real, a': real, b': real)
    requires a' == c * a && b' == c * b && k == c * c
    ensures ScalesBy(AtResidual(a', b'), AtResidual(a, b), c, k)
  {
    forall p: Point {:trigger ScalePoint(p, c)}
      ensures AtResidual(a', b')(ScalePoint(p, c)) == k * AtResidual(a, b)(p)
    {
      ResidualAtScaled(p, c, k, a, b, a', b');
    }
  }

  lemma ResidualRescaled(ps: seq<Point>, c: real, k: real, a: real, b: real, a': real, b': real)
    returns (residual: real, residual': real)
    requires a' == c * a && b' == c * b && k == c * c
    ensures residual == ResidualSquares(ps, a, b) && residual' == ResidualSquares(ScalePoints(ps, c), a', b')
    ensures residual' == k * residual
  {
    var f, g := AtResidual(a, b), AtResidual(a', b');
    ResidualScales(c, k, a, b, a', b');
    residual, residual' := ScaledTotals(ps, c, g, f, k);
  }

  lemma ScaledTotals(ps: seq<Point>, c: real, f: Point -> real, g: Point -> real, k: real)
    returns (total: real, scaled: real)
    requires ScalesBy(f, g, c, k)
    ensures total == Total(ps, g) && scaled == Total(ScalePoints(ps, c), f) && scaled == k * total
  {
    total, scaled := Total(ps, g), Total(ScalePoints(ps, c), f);
    TotalRescaled(ps, c, f, g, k);
  }

  lemma ResidualAtScaled(p: Point, c: real, k: real, a: real, b: real, a': real, b': real)
    requires a' == c * a && b' == c * b && k == c * c
    ensures AtResidual(a', b')(ScalePoint(p, c)) == k * AtResidual(a, b)(p)
  {
    var t, t' := b * p.x, b' * p.x;
    ProductScaled(p.x, b, b', c);
    var r, r' := p.y - (a + t), c * p.y - (a' + t');
    LinearScaled(p.y, a, t, c);
    SquareScaled(r, r', c, k);
  }

  lemma LinearScaled(y: real, a: real, t: real, c: real)
    ensures c * y - (c * a + c * t) == c * (y - (a + t))
  {
  }

  lemma GradeRescaled(n: nat, span: int, horizon: int, c: real, k: real,
                      slope: real, intercept: real, residual: real, varY: real, range: real,
                      slope': real, intercept': real, residual': real, varY': real, range': real)
    requires n > 0 && c > 0.0 && varY != 0.0 && range != 0.0 && varY' != 0.0 && range' != 0.0
    requires slope' == c * slope && intercept' == c * intercept && k == c * c
    requires residual' == k * residual && varY' == k * varY && range' == c * range
    ensures GradeLine(n, span, horizon, slope', intercept', residual', varY', range')
      == RescaleResult(GradeLine(n, span, horizon, slope, intercept, residual, varY, range), c)
  {
    RatioRescaled(residual, varY, k, residual', varY');
    NormalizedRescaled(residual, n, range, c, k, residual', range');
    var at := Seconds(span) + Seconds(horizon);
    var rate, rate' := intercept + slope * at, intercept' + slope' * at;
    ProductScaled(at, slope, slope', c);
    Distribute(c, rate, intercept, slope * at);
    assert rate' == c * rate;
    SignOfProduct(rate, c);
    assert rate * c == c * rate;
  }

  lemma RatioRescaled(a: real, b: real, k: real, a': real, b': real)
    requires a' == k * a && b' == k * b && b != 0.0 && b' != 0.0
    ensures a' / b' == a / b
  {
    DivideBack(a, b);
    var q := a / b;
    assert q * b' == k * (q * b);
    CancelQuotient(a', b', q);
  }

  lemma NormalizedRescaled(residual: real, n: nat, range: real, c: real, k: real, residual': real, range': real)
    requires n > 0 && range != 0.0 && range' != 0.0 && range' == c * range && residual' == k * residual && k == c * c
    ensures NormalizedSquare(residual', n, range') == NormalizedSquare(residual, n, range)
  {
    var q, q' := residual / n as real, residual' / n as real;
    QuotientScaled(residual, n as real, k);
    var w := c * q;
    assert q' == c * w;
    RatioRescaled(w, range, c, q', range');
    QuotientScaled(q, range, c);
    RatioRescaled(q / range, range, c, w / range, range');
  }

  lemma LineRescaled(c: real, cov: real, varX: real, mx: real, my: real, cov': real, my': real)
    returns (slope: real, intercept: real, slope': real, intercept': real)
    requires varX != 0.0 && cov' == c * cov && my' == c * my
    ensures slope == cov / varX && intercept == my - slope * mx
    ensures slope' == cov' / varX && intercept' == my' - slope' * mx
    ensures slope' == c * slope && intercept' == c * intercept
  {
    slope, slope' := cov / varX, cov' / varX;
    intercept, intercept' := my - slope * mx, my' - slope' * mx;
    QuotientScaled(cov, varX, c);
    ProductScaled(mx, slope, slope', c);
    Distribute(c, intercept, my, -(slope * mx));
  }

  lemma SignsRescaled(c: real, k: real, varY: real, varY': real, slope: real, slope': real)
    requires c > 0.0 && k == c * c && varY' == k * varY && slope' == c * slope
    ensures (varY' == 0.0 <==> varY == 0.0) && (slope' <= 0.0 <==> slope <= 0.0)
  {
    SignOfProduct(c, c);
    SignOfProduct(varY, k);
    SignOfProduct(-slope, c);
    SignOfProduct(slope, c);
    assert varY * k == varY';
    assert slope * c == slope' && (-slope) * c == -slope';
  }

  lemma CentredSumsRescaled(ps: seq<Point>, c: real, k: real, mx: real, my: real, my': real)
    returns (cov: real, cov': real, varX: real, varY: real, varY': real)
    requires my' == c * my && k == c * c
    ensures cov == Covariance(ps, mx, my) && cov' == Covariance(ScalePoints(ps, c), mx, my') && cov' == c * cov
    ensures varX == VarianceX(ps, mx) && varX == VarianceX(ScalePoints(ps, c), mx)
    ensures varY == VarianceY(ps, my) && varY' == VarianceY(ScalePoints(ps, c), my') && varY' == k * varY
  {
    cov, cov', varX := Covariance(ps, mx, my), Covariance(ScalePoints(ps, c), mx, my'), VarianceX(ps, mx);
    varY, varY' := VarianceY(ps, my), VarianceY(ScalePoints(ps, c), my');
    CovarianceRescaled(ps, c, mx, my, my');
    VarianceXRescaled(ps, c, mx);
    VarianceYRescaled(ps, c, k, my, my');
  }

  lemma RangeRescaled(ps: seq<Point>, c: real) returns (range: real, range': real)
    requires |ps| > 0 && c > 0.0
    ensures range == MaxY(ps) - MinY(ps) && range' == MaxY(ScalePoints(ps, c)) - MinY(ScalePoints(ps, c))
    ensures range' == c * range && (range' == 0.0 <==> range == 0.0)
  {
    var low, low' := MinYRescaled(ps, c);
    var high, high' := MaxYRescaled(ps, c);
    range, range' := DifferenceScaled(high, low, high', low', c);
  }

  lemma DifferenceScaled(high: real, low: real, high': real, low': real, c: real) returns (d: real, d': real)
    requires c > 0.0 && high' == c * high && low' == c * low
    ensures d == high - low && d' == high' - low' && d' == c * d && (d' == 0.0 <==> d == 0.0)
  {
    d, d' := high - low, high' - low';
    Distribute(c, d, high, -low);
    SignOfProduct(d, c);
    assert d * c == c * d;
  }

  lemma FittedLineRescaled(ps: seq<Point>, qs: seq<Point>, c: real, mx: real, my: real, my': real, cov: real,
      cov': real, varX: real)
    returns (slope: real, intercept: real, slope': real, intercept': real)
    requires |ps| > 0 && |qs| > 0 && varX != 0.0 && cov' == c * cov && my' == c * my
    requires mx == MeanX(ps) && my == MeanY(ps) && cov == Covariance(ps, mx, my) && varX == VarianceX(ps, mx)
    requires mx == MeanX(qs) && my' == MeanY(qs) && cov' == Covariance(qs, mx, my') && varX == VarianceX(qs, mx)
    ensures VarianceX(ps, MeanX(ps)) != 0.0 && slope == Slope(ps) && intercept == Intercept(ps)
    ensures VarianceX(qs, MeanX(qs)) != 0.0 && slope' == Slope(qs) && intercept' == Intercept(qs)
    ensures slope' == c * slope && intercept' == c * intercept
  {
    slope, intercept, slope', intercept' := LineRescaled(c, cov, varX, mx, my, cov', my');
  }

  // A window that is not flat, as a line and two numbers.
  lemma NotFlat(ps: seq<Point>, span: int, horizon: int, slope: real, intercept: real, varY: real, range: real)
    requires |ps| > 0 && VarianceX(ps, MeanX(ps)) != 0.0 && slope == Slope(ps) && intercept == Intercept(ps)
    requires varY == VarianceY(ps, MeanY(ps)) && range == MaxY(ps) - MinY(ps) && varY != 0.0 && range != 0.0
    ensures FitLine(ps, span, horizon) == UseLine(ps, span, horizon, slope, intercept, varY, range)
  {
  }

  lemma UseLineRescaled(ps: seq<Point>, span: int, horizon: int, c: real, k: real, slope: real, intercept: real,
                        varY: real, range: real, slope': real, intercept': real, varY': real, range': real)
    requires |ps| > 0 && c > 0.0 && k == c * c && varY != 0.0 && range != 0.0 && varY' != 0.0 && range' != 0.0
    requires slope' == c * slope && intercept' == c * intercept && varY' == k * varY && range' == c * range
    ensures UseLine(ScalePoints(ps, c), span, horizon, slope', intercept', varY', range')
      == RescaleResult(UseLine(ps, span, horizon, slope, intercept, varY, range), c)
  {
    SignsRescaled(c, k, 0.0, 0.0, slope, slope');
    var residual, residual' := ResidualRescaled(ps, c, k, intercept, slope, intercept', slope');
    GradeRescaled(|ps|, span, horizon, c, k, slope, intercept, residual, varY, range, slope', intercept', residual',
      varY', range');
  }

  // Rescaled points give the rescaled result.
  lemma FitLineRescaled(ps: seq<Point>, span: int, horizon: int, c: real)
    requires |ps| > 0 && c > 0.0
    ensures FitLine(ScalePoints(ps, c), span, horizon) == RescaleResult(FitLine(ps, span, horizon), c)
  {
    var k :| k == c * c;
    var mx, my, my' := MeansRescaled(ps, c);
    var cov, cov', varX, varY, varY' := CentredSumsRescaled(ps, c, k, mx, my, my');
    var range, range' := RangeRescaled(ps, c);
    SignsRescaled(c, k, varY, varY', 0.0, 0.0);
    if varX != 0.0 && varY != 0.0 && range != 0.0 {
      var slope, intercept, slope', intercept' :=
        FittedLineRescaled(ps, ScalePoints(ps, c), c, mx, my, my', cov, cov', varX);
      NotFlat(ps, span, horizon, slope, intercept, varY, range);
      NotFlat(ScalePoints(ps, c), span, horizon, slope', intercept', varY', range');
      UseLineRescaled(ps, span, horizon, c, k, slope, intercept, varY, range, slope', intercept', varY', range');
    }
  }

  lemma WindowRescaled(samples: seq<Sample>, c: real)
    requires |samples| > 0
    ensures FitWindow(Rescale(samples, c)) == Rescale(FitWindow(samples), c)
    ensures FitPoints(Rescale(samples, c)) == ScalePoints(FitPoints(samples), c)
      && Span(Rescale(samples, c)) == Span(samples)
  {
    FilterRescale(samples, c, Last(samples).timestamp - TREND_FIT_WINDOW);
    FitWindowEnds(samples);
    var left, right := FitPoints(Rescale(samples, c)), ScalePoints(FitPoints(samples), c);
    forall i | 0 <= i < |left|
      ensures left[i] == right[i]
    {
    }
  }

  lemma GateRescaled(samples: seq<Sample>, now: int, horizon: int, c: real)
    requires c > 0.0 && |samples| > 0
    ensures Gate(Rescale(samples, c), now, horizon) == Gate(samples, now, horizon)
    ensures Gate(samples, now, horizon).Some? ==>
      Gate(samples, now, horizon).value.slope == Gate(samples, now, horizon).value.rate == 0.0
  {
    WindowRescaled(samples, c);
    FitWindowEnds(samples);
    DefectRescale(FitWindow(samples), c);
  }

  // Measuring every rate in another unit rescales the slope and the forecast,
  // and leaves R^2, RMSE, quality, reason and every flag as they are.
  lemma ForecastIsUnitEquivariant(samples: seq<Sample>, now: int, horizon: int, c: real)
    requires c > 0.0
    ensures Predict(Rescale(samples, c), now, horizon) == RescaleResult(Predict(samples, now, horizon), c)
  {
    if |samples| > 0 {
      GateRescaled(samples, now, horizon, c);
      if Gate(samples, now, horizon).None? {
        FittedRescaled(samples, now, horizon, c);
      }
    }
  }

  lemma FittedRescaled(samples: seq<Sample>, now: int, horizon: int, c: real)
    requires c > 0.0 && |samples| > 0 && Gate(samples, now, horizon).None?
      && Gate(Rescale(samples, c), now, horizon).None?
    ensures Predict(Rescale(samples, c), now, horizon) == RescaleResult(Predict(samples, now, horizon), c)
  {
    WindowRescaled(samples, c);
    PredictIsFitLine(samples, now, horizon);
    PredictIsFitLine(Rescale(samples, c), now, horizon);
    FitLineRescaled(FitPoints(samples), Span(samples), horizon, c);
  }

  // ----- R^2 >= 0.95 alone is not HIGH -----

  function StepSamples(): seq<Sample> {
    var base := 1000 * SECOND;
    [Sample(base, Finite(0.0)), Sample(base + 8 * SECOND, Finite(0.0)), Sample(base + 16 * SECOND, Finite(0.0)),
     Sample(base + 61 * SECOND, Finite(1.0)), Sample(base + 69 * SECOND, Finite(1.0)),
     Sample(base + 77 * SECOND, Finite(1.0))]
  }

  function StepPoints(): seq<Point> {
    [Point(0.0, 0.0), Point(8.0, 0.0), Point(16.0, 0.0), Point(61.0, 1.0), Point(69.0, 1.0), Point(77.0, 1.0)]
  }

  lemma TotalOfSix(ps: seq<Point>, f: Point -> real)
    requires |ps| == 6
    ensures Total(ps, f) == f(ps[0]) + f(ps[1]) + f(ps[2]) + f(ps[3]) + f(ps[4]) + f(ps[5])
  {
    assert ps[..5][..4] == ps[..4] && ps[..4][..3] == ps[..3] && ps[..3][..2] == ps[..2] && ps[..2][..1] == ps[..1]
      && ps[..1][..0] == [];
    assert Total(ps[..1], f) == f(ps[0]);
    assert Total(ps[..2], f) == f(ps[0]) + f(ps[1]);
    assert Total(ps[..3], f) == f(ps[0]) + f(ps[1]) + f(ps[2]);
    assert Total(ps[..4], f) == f(ps[0]) + f(ps[1]) + f(ps[2]) + f(ps[3]);
  }

  lemma StepMeans() returns (mx: real, my: real)
    ensures mx == MeanX(StepPoints()) == 38.5 && my == MeanY(StepPoints()) == 0.5
  {
    mx, my := MeanX(StepPoints()), MeanY(StepPoints());
    TotalOfSix(StepPoints(), AtX());
    TotalOfSix(StepPoints(), AtY());
  }

  lemma StepSums()
    ensures Covariance(StepPoints(), 38.5, 0.5) == 91.5
    ensures VarianceX(StepPoints(), 38.5) == 5837.5
    ensures VarianceY(StepPoints(), 0.5) == 1.5
  {
    TotalOfSix(StepPoints(), AtXY(38.5, 0.5));
    TotalOfSix(StepPoints(), AtXX(38.5));
    TotalOfSix(StepPoints(), AtYY(0.5));
  }

  lemma StepExtremes()
    ensures MinY(StepPoints()) == 0.0 && MaxY(StepPoints()) == 1.0
  {
    var ps := StepPoints();
    ExtremesBound(ps);
    assert ps[0] in ps && ps[5] in ps;
    MinAttained(ps);
    MaxAttained(ps);
  }

  lemma {:induction false} MinAttained(ps: seq<Point>)
    requires |ps| > 0
    ensures exists p :: p in ps && p.y == MinY(ps)
  {
    if |ps| > 1 {
      MinAttained(ps[..|ps| - 1]);
      var p :| p in ps[..|ps| - 1] && p.y == MinY(ps[..|ps| - 1]);
      assert p in ps && ps[|ps| - 1] in ps;
    } else {
      assert ps[0] in ps;
    }
  }

  lemma {:induction false} MaxAttained(ps: seq<Point>)
    requires |ps| > 0
    ensures exists p :: p in ps && p.y == MaxY(ps)
  {
    if |ps| > 1 {
      MaxAttained(ps[..|ps| - 1]);
      var p :| p in ps[..|ps| - 1] && p.y == MaxY(ps[..|ps| - 1]);
      assert p in ps && ps[|ps| - 1] in ps;
    } else {
      assert ps[0] in ps;
    }
  }

  lemma StepWindow()
    ensures FitWindow(StepSamples()) == StepSamples() && FitPoints(StepSamples()) == StepPoints()
      && Span(StepSamples()) == 77 * SECOND
    ensures Defect(StepSamples()).None?
  {
    FilterEverything(StepSamples(), NotBefore(Last(StepSamples()).timestamp - TREND_FIT_WINDOW));
    StepIsClean();
    assert Points(1000 * SECOND, StepSamples()) == StepPoints();
  }

  lemma StepIsClean()
    ensures Defect(StepSamples()).None?
  {
    NoDefect(StepSamples());
  }

  // A step of six points has R^2 above 0.95 and is still only MEDIUM: below
  // R^2 = 0.96 the RMSE gate can decide.
  lemma RSquaredAloneIsNotHigh()
    ensures var result := Predict(StepSamples(), 1077 * SECOND, 30 * SECOND);
      result.r2 >= 0.95 && result.hasRate && result.quality == Medium
  {
    StepWindow();
    StepSums();
    StepExtremes();
    var ps := StepPoints();
    var mx, my := StepMeans();
    PredictIsFitLine(StepSamples(), 1077 * SECOND, 30 * SECOND);
    var slope, intercept := StepLine();
    NotFlat(ps, 77 * SECOND, 30 * SECOND, slope, intercept, 1.5, 1.0);
    FittedResidual(ps);
    StepGrade(slope, intercept, ResidualSquares(ps, intercept, slope));
  }

  lemma StepLine() returns (slope: real, intercept: real)
    ensures VarianceX(StepPoints(), MeanX(StepPoints())) != 0.0
    ensures slope == Slope(StepPoints()) && intercept == Intercept(StepPoints())
    ensures slope == 91.5 / 5837.5 && intercept == 0.5 - slope * 38.5
  {
    var mx, my := StepMeans();
    StepSums();
    slope, intercept := Slope(StepPoints()), Intercept(StepPoints());
  }

  lemma StepGrade(slope: real, intercept: real, residual: real)
    requires slope == 91.5 / 5837.5 && intercept == 0.5 - slope * 38.5 && residual == 1.5 - slope * 91.5
    ensures var result := GradeLine(6, 77 * SECOND, 30 * SECOND, slope, intercept, residual, 1.5, 1.0);
      result.r2 >= 0.95 && result.hasRate && result.quality == Medium
  {
  }
}
