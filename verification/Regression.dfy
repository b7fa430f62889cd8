// Sums behind a straight-line fit, and the algebra that makes the fit optimal.
module Regression {
  datatype Point = Point(x: real, y: real)

  function Total(ps: seq<Point>, f: Point -> real): real {
    if |ps| == 0 then 0.0 else Total(ps[..|ps| - 1], f) + f(ps[|ps| - 1])
  }

  // The summands of the loops: coordinates, centred products, residuals.
  function AtX(): Point -> real { (p: Point) => p.x }
  function AtY(): Point -> real { (p: Point) => p.y }
  function AtDX(mx: real): Point -> real { (p: Point) => p.x - mx }
  function AtDY(my: real): Point -> real { (p: Point) => p.y - my }
  function AtXY(mx: real, my: real): Point -> real { (p: Point) => (p.x - mx) * (p.y - my) }
  function AtXX(mx: real): Point -> real { (p: Point) => (p.x - mx) * (p.x - mx) }
  function AtYY(my: real): Point -> real { (p: Point) => (p.y - my) * (p.y - my) }
  function AtResidual(a: real, b: real): Point -> real {
    (p: Point) => var residual := p.y - (a + b * p.x); residual * residual
  }

  function SumX(ps: seq<Point>): real { Total(ps, AtX()) }
  function SumY(ps: seq<Point>): real { Total(ps, AtY()) }
  function Covariance(ps: seq<Point>, mx: real, my: real): real { Total(ps, AtXY(mx, my)) }
  function VarianceX(ps: seq<Point>, mx: real): real { Total(ps, AtXX(mx)) }
  function VarianceY(ps: seq<Point>, my: real): real { Total(ps, AtYY(my)) }

  // Residual sum of squares of the line y = a + b*x.
  function ResidualSquares(ps: seq<Point>, a: real, b: real): real { Total(ps, AtResidual(a, b)) }

  function MinY(ps: seq<Point>): real
    requires |ps| > 0
  {
    var y := ps[|ps| - 1].y;
    if |ps| == 1 || y < MinY(ps[..|ps| - 1]) then y else MinY(ps[..|ps| - 1])
  }

  function MaxY(ps: seq<Point>): real
    requires |ps| > 0
  {
    var y := ps[|ps| - 1].y;
    if |ps| == 1 || y > MaxY(ps[..|ps| - 1]) then y else MaxY(ps[..|ps| - 1])
  }

  function MeanX(ps: seq<Point>): real
    requires |ps| > 0
  {
    SumX(ps) / |ps| as real
  }

  function MeanY(ps: seq<Point>): real
    requires |ps| > 0
  {
    SumY(ps) / |ps| as real
  }

  function Slope(ps: seq<Point>): real
    requires |ps| > 0 && VarianceX(ps, MeanX(ps)) != 0.0
  {
    Covariance(ps, MeanX(ps), MeanY(ps)) / VarianceX(ps, MeanX(ps))
  }

  function Intercept(ps: seq<Point>): real
    requires |ps| > 0 && VarianceX(ps, MeanX(ps)) != 0.0
  {
    MeanY(ps) - Slope(ps) * MeanX(ps)
  }

  // ----- Products of reals, one small fact each -----

  lemma ProductSign(a: real, b: real)
    requires a >= 0.0 && b >= 0.0
    ensures a * b >= 0.0
    ensures a * b == 0.0 <==> a == 0.0 || b == 0.0
  {
  }

  lemma SquareSign(u: real)
    ensures u * u >= 0.0
    ensures u * u == 0.0 <==> u == 0.0
  {
    if u > 0.0 {
      ProductSign(u, u);
    } else {
      ProductSign(-u, -u);
      assert (-u) * (-u) == u * u;
    }
  }

  lemma ProductMonotone(n: real, a: real, b: real)
    requires n >= 0.0 && a <= b
    ensures n * a <= n * b
  {
    ProductSign(n, b - a);
    assert n * (b - a) == n * b - n * a;
  }

  lemma SignOfProduct(a: real, w: real)
    ensures w > 0.0 ==> (a * w < 0.0 <==> a < 0.0) && (a * w == 0.0 <==> a == 0.0)
  {
    if a >= 0.0 && w > 0.0 {
      ProductSign(a, w);
    } else if w > 0.0 {
      ProductSign(-a, w);
      assert (-a) * w == -(a * w);
    }
  }

  lemma CancelFactor(a: real, b: real, w: real)
    requires w > 0.0 && a * w <= b * w
    ensures a <= b
  {
    SignOfProduct(b - a, w);
    assert (b - a) * w == b * w - a * w;
  }

  lemma Distribute(k: real, sum: real, left: real, right: real)
    requires sum == left + right
    ensures k * sum == k * left + k * right
  {
  }

  lemma DivideBack(a: real, n: real)
    requires n != 0.0
    ensures n * (a / n) == a && (a / n) * n == a
  {
  }

  // ----- Totals -----

  lemma {:induction false} TotalZeroIff(ps: seq<Point>, f: Point -> real)
    requires forall p :: p in ps ==> f(p) >= 0.0
    ensures Total(ps, f) >= 0.0
    ensures Total(ps, f) == 0.0 <==> forall p :: p in ps ==> f(p) == 0.0
  {
    if |ps| > 0 {
      assert ps == ps[..|ps| - 1] + [ps[|ps| - 1]];
      assert ps[|ps| - 1] in ps;
      TotalZeroIff(ps[..|ps| - 1], f);
    }
  }

  // Totals are linear: k0*f0 + ... + k4*f4 + k5, summed point by point.
  lemma {:induction false} TotalLinear(ps: seq<Point>, h: Point -> real,
                                       k0: real, f0: Point -> real, k1: real, f1: Point -> real,
                                       k2: real, f2: Point -> real,
                                       k3: real, f3: Point -> real, k4: real, f4: Point -> real, k5: real)
    requires forall p :: h(p) == k0 * f0(p) + k1 * f1(p) + k2 * f2(p) + k3 * f3(p) + k4 * f4(p) + k5
    ensures Total(ps, h)
      == k0 * Total(ps, f0) + k1 * Total(ps, f1) + k2 * Total(ps, f2) + k3 * Total(ps, f3) + k4 * Total(ps, f4)
        + |ps| as real * k5
  {
    if |ps| > 0 {
      var front, p := ps[..|ps| - 1], ps[|ps| - 1];
      TotalLinear(front, h, k0, f0, k1, f1, k2, f2, k3, f3, k4, f4, k5);
      Distribute(k0, Total(ps, f0), Total(front, f0), f0(p));
      Distribute(k1, Total(ps, f1), Total(front, f1), f1(p));
      Distribute(k2, Total(ps, f2), Total(front, f2), f2(p));
      Distribute(k3, Total(ps, f3), Total(front, f3), f3(p));
      Distribute(k4, Total(ps, f4), Total(front, f4), f4(p));
      Distribute(k5, |ps| as real, |front| as real, 1.0);
    }
  }

  // A quadratic in the deviations from the mean: the terms linear in one
  // deviation contribute nothing to the total.
  lemma TotalAroundMean(ps: seq<Point>, h: Point -> real, yy: real, xy: real, xx: real, y: real, x: real, k: real)
    requires |ps| > 0
    requires forall p :: h(p) == yy * AtYY(MeanY(ps))(p) + xy * AtXY(MeanX(ps), MeanY(ps))(p) + xx * AtXX(MeanX(ps))(p)
                            + y * AtDY(MeanY(ps))(p) + x * AtDX(MeanX(ps))(p) + k
    ensures Total(ps, h)
      == yy * VarianceY(ps, MeanY(ps)) + xy * Covariance(ps, MeanX(ps), MeanY(ps)) + xx * VarianceX(ps, MeanX(ps))
        + |ps| as real * k
  {
    var mx, my := MeanX(ps), MeanY(ps);
    DeviationsCancel(ps);
    TotalLinear(ps, h, yy, AtYY(my), xy, AtXY(mx, my), xx, AtXX(mx), y, AtDY(my), x, AtDX(mx), k);
  }

  lemma DeviationsCancel(ps: seq<Point>)
    requires |ps| > 0
    ensures Total(ps, AtDX(MeanX(ps))) == 0.0
    ensures Total(ps, AtDY(MeanY(ps))) == 0.0
  {
    var mx, my, zero := MeanX(ps), MeanY(ps), (p: Point) => 0.0;
    TotalLinear(ps, AtDX(mx), 1.0, AtX(), 0.0, zero, 0.0, zero, 0.0, zero, 0.0, zero, -mx);
    TotalLinear(ps, AtDY(my), 1.0, AtY(), 0.0, zero, 0.0, zero, 0.0, zero, 0.0, zero, -my);
    DivideBack(SumX(ps), |ps| as real);
    DivideBack(SumY(ps), |ps| as real);
  }

  // ----- Least squares -----

  lemma ResidualOfPoint(p: Point, a: real, b: real, c: real, mx: real, my: real)
    requires c == my - a - b * mx
    ensures AtResidual(a, b)(p) == 1.0 * AtYY(my)(p) + (-2.0 * b) * AtXY(mx, my)(p) + b * b * AtXX(mx)(p)
                                   + (2.0 * c) * AtDY(my)(p) + (-2.0 * b * c) * AtDX(mx)(p) + c * c
  {
    var residual, w, u := p.y - (a + b * p.x), p.y - my, p.x - mx;
    assert b * u == b * p.x - b * mx;
    SquareOfThree(residual, w, b, u, c);
    assert AtResidual(a, b)(p) == residual * residual && AtYY(my)(p) == w * w;
    assert AtXY(mx, my)(p) == u * w && AtXX(mx)(p) == u * u;
    assert AtDY(my)(p) == w && AtDX(mx)(p) == u;
  }

  // Residual of any line, in terms of its slope b and its offset c at the mean.
  lemma ResidualAroundMean(ps: seq<Point>, a: real, b: real, c: real)
    requires |ps| > 0 && c == MeanY(ps) - a - b * MeanX(ps)
    ensures ResidualSquares(ps, a, b) ==
      VarianceY(ps, MeanY(ps)) - 2.0 * b * Covariance(ps, MeanX(ps), MeanY(ps)) + b * b * VarianceX(ps, MeanX(ps))
        + |ps| as real * (c * c)
  {
    var mx, my := MeanX(ps), MeanY(ps);
    forall p: Point
      ensures AtResidual(a, b)(p) == 1.0 * AtYY(my)(p) + (-2.0 * b) * AtXY(mx, my)(p) + b * b * AtXX(mx)(p)
                                     + (2.0 * c) * AtDY(my)(p) + (-2.0 * b * c) * AtDX(mx)(p) + c * c
    {
      ResidualOfPoint(p, a, b, c, mx, my);
    }
    TotalAroundMean(ps, AtResidual(a, b), 1.0, -2.0 * b, b * b, 2.0 * c, -2.0 * b * c, c * c);
    MinusOut(b, Covariance(ps, mx, my));
  }

  lemma MinusOut(b: real, cov: real)
    ensures (-2.0 * b) * cov == -(2.0 * b * cov)
  {
  }

  lemma SquareOfThree(residual: real, w: real, b: real, u: real, c: real)
    requires residual == w - b * u + c
    ensures residual * residual
      == 1.0 * (w * w) + (-2.0 * b) * (u * w) + b * b * (u * u) + (2.0 * c) * w + (-2.0 * b * c) * u + c * c
  {
  }

  // Any line is the fitted line plus the cost of its two deviations.
  lemma ResidualOfLine(ps: seq<Point>, a: real, b: real, c: real, d: real)
    requires |ps| > 0 && VarianceX(ps, MeanX(ps)) != 0.0
    requires c == MeanY(ps) - a - b * MeanX(ps) && d == b - Slope(ps)
    ensures ResidualSquares(ps, a, b) == VarianceY(ps, MeanY(ps)) - Slope(ps) * Covariance(ps, MeanX(ps), MeanY(ps))
      + VarianceX(ps, MeanX(ps)) * (d * d) + |ps| as real * (c * c)
  {
    var cov, varX := Covariance(ps, MeanX(ps), MeanY(ps)), VarianceX(ps, MeanX(ps));
    ResidualAroundMean(ps, a, b, c);
    DivideBack(cov, varX);
    CompleteSquare(b, Slope(ps), d, varX, cov);
  }

  lemma CompleteSquare(b: real, slope: real, d: real, varX: real, cov: real)
    requires slope * varX == cov && d == b - slope
    ensures -2.0 * b * cov + b * b * varX == varX * (d * d) - slope * cov
  {
    assert b * cov == b * slope * varX;
    assert slope * cov == slope * slope * varX;
    assert d * d == b * b - 2.0 * (b * slope) + slope * slope;
    assert varX * (d * d) == b * b * varX - 2.0 * (b * slope * varX) + slope * slope * varX;
  }

  // Variance decomposition: what the fit leaves is varianceY - slope*covariance.
  lemma FittedResidual(ps: seq<Point>)
    requires |ps| > 0 && VarianceX(ps, MeanX(ps)) != 0.0
    ensures ResidualSquares(ps, Intercept(ps), Slope(ps))
      == VarianceY(ps, MeanY(ps)) - Slope(ps) * Covariance(ps, MeanX(ps), MeanY(ps))
  {
    ResidualOfLine(ps, Intercept(ps), Slope(ps), 0.0, 0.0);
  }

  // Least squares: no line does better, and only the fitted line does as well.
  lemma FittedIsOptimal(ps: seq<Point>, a: real, b: real)
    requires |ps| > 0 && VarianceX(ps, MeanX(ps)) > 0.0
    ensures ResidualSquares(ps, Intercept(ps), Slope(ps)) <= ResidualSquares(ps, a, b)
    ensures ResidualSquares(ps, Intercept(ps), Slope(ps)) == ResidualSquares(ps, a, b) <==>
      a == Intercept(ps) && b == Slope(ps)
  {
    var d, c := b - Slope(ps), MeanY(ps) - a - b * MeanX(ps);
    FittedResidual(ps);
    ResidualOfLine(ps, a, b, c, d);
    SquareSign(d);
    SquareSign(c);
    ProductSign(VarianceX(ps, MeanX(ps)), d * d);
    ProductSign(|ps| as real, c * c);
  }

  // ----- Signs and bounds -----

  lemma ResidualNonnegative(ps: seq<Point>, a: real, b: real)
    ensures ResidualSquares(ps, a, b) >= 0.0
    ensures ResidualSquares(ps, a, b) == 0.0 <==> forall p :: p in ps ==> OnLine(p, a, b)
  {
    forall p: Point
      ensures AtResidual(a, b)(p) >= 0.0 && (AtResidual(a, b)(p) == 0.0 <==> OnLine(p, a, b))
    {
      ResidualAt(p, a, b, p.y - (a + b * p.x));
    }
    TotalZeroIff(ps, AtResidual(a, b));
  }

  predicate OnLine(p: Point, a: real, b: real) {
    p.y == a + b * p.x
  }

  lemma ResidualAt(p: Point, a: real, b: real, residual: real)
    requires residual == p.y - (a + b * p.x)
    ensures AtResidual(a, b)(p) >= 0.0
    ensures AtResidual(a, b)(p) == 0.0 <==> OnLine(p, a, b)
  {
    SquareSign(residual);
    assert AtResidual(a, b)(p) == residual * residual;
  }

  lemma VarianceYNonnegative(ps: seq<Point>, my: real)
    ensures VarianceY(ps, my) >= 0.0
  {
    forall p: Point
      ensures AtYY(my)(p) >= 0.0
    {
      SquareSign(p.y - my);
    }
    TotalZeroIff(ps, AtYY(my));
  }

  // Two different abscissae make the variance positive, around any centre.
  lemma VarianceXPositive(ps: seq<Point>, mx: real, i: nat, j: nat)
    requires i < |ps| && j < |ps| && ps[i].x != ps[j].x
    ensures VarianceX(ps, mx) > 0.0
  {
    forall p: Point
      ensures AtXX(mx)(p) >= 0.0 && (AtXX(mx)(p) == 0.0 <==> p.x == mx)
    {
      SquareSign(p.x - mx);
    }
    TotalZeroIff(ps, AtXX(mx));
    assert ps[i] in ps && ps[j] in ps;
  }

  lemma {:induction false} ExtremesBound(ps: seq<Point>)
    requires |ps| > 0
    ensures forall p :: p in ps ==> MinY(ps) <= p.y <= MaxY(ps)
  {
    if |ps| > 1 {
      ExtremesBound(ps[..|ps| - 1]);
      assert ps == ps[..|ps| - 1] + [ps[|ps| - 1]];
    }
  }

  lemma {:induction false} ExtremesAttained(ps: seq<Point>) returns (low: Point, high: Point)
    requires |ps| > 0
    ensures low in ps && high in ps && low.y == MinY(ps) && high.y == MaxY(ps)
  {
    low, high := ps[|ps| - 1], ps[|ps| - 1];
    if |ps| > 1 {
      var l, h := ExtremesAttained(ps[..|ps| - 1]);
      if l.y <= low.y { low := l; }
      if h.y >= high.y { high := h; }
    }
  }

  // The range is the largest difference between two ordinates.
  lemma RangeIsSpread(ps: seq<Point>)
    requires |ps| > 0
    ensures exists p, q :: p in ps && q in ps && q.y - p.y == MaxY(ps) - MinY(ps)
    ensures forall p, q :: p in ps && q in ps ==> q.y - p.y <= MaxY(ps) - MinY(ps)
  {
    ExtremesBound(ps);
    var low, high := ExtremesAttained(ps);
  }

  function AtBetween(lo: real, hi: real): Point -> real { (p: Point) => (p.y - lo) * (hi - p.y) }

  lemma BetweenAt(p: Point, lo: real, hi: real, left: real, right: real)
    requires left == p.y - lo >= 0.0 && right == hi - p.y >= 0.0
    ensures AtBetween(lo, hi)(p) >= 0.0
  {
    ProductSign(left, right);
    assert AtBetween(lo, hi)(p) == left * right;
  }

  lemma ProductAroundMean(left: real, right: real, w: real, above: real, below: real)
    requires left == w + above && right == below - w
    ensures left * right == -1.0 * (w * w) + (below - above) * w + above * below
  {
  }

  lemma ProductAtMostQuarter(a: real, b: real, sum: real)
    requires sum == a + b
    ensures a * b <= sum * sum / 4.0
  {
    SquareSign(a - b);
    assert sum * sum == (a - b) * (a - b) + 4.0 * (a * b);
  }

  lemma BetweenTotal(ps: seq<Point>, lo: real, hi: real)
    requires forall p :: p in ps ==> lo <= p.y <= hi
    ensures Total(ps, AtBetween(lo, hi)) >= 0.0
  {
    forall p | p in ps
      ensures AtBetween(lo, hi)(p) >= 0.0
    {
      BetweenAt(p, lo, hi, p.y - lo, hi - p.y);
    }
    TotalZeroIff(ps, AtBetween(lo, hi));
  }

  lemma BetweenAroundMean(ps: seq<Point>, lo: real, hi: real, above: real, below: real)
    requires |ps| > 0 && above == MeanY(ps) - lo && below == hi - MeanY(ps)
    ensures Total(ps, AtBetween(lo, hi)) == |ps| as real * (above * below) - VarianceY(ps, MeanY(ps))
  {
    var my := MeanY(ps);
    forall p: Point
      ensures AtBetween(lo, hi)(p) == -1.0 * AtYY(my)(p) + 0.0 * AtXY(MeanX(ps), my)(p) + 0.0 * AtXX(MeanX(ps))(p)
                                      + (below - above) * AtDY(my)(p) + 0.0 * AtDX(MeanX(ps))(p) + above * below
    {
      ProductAroundMean(p.y - lo, hi - p.y, p.y - my, above, below);
    }
    TotalAroundMean(ps, AtBetween(lo, hi), -1.0, 0.0, 0.0, below - above, 0.0, above * below);
  }

  lemma QuarterRange(variance: real, n: real, above: real, below: real, range: real)
    requires n >= 0.0 && range == above + below && variance <= n * (above * below)
    ensures variance <= n * (range * range / 4.0)
  {
    ProductAtMostQuarter(above, below, range);
    ProductMonotone(n, above * below, range * range / 4.0);
  }

  lemma VarianceAtMostProduct(ps: seq<Point>) returns (above: real, below: real)
    requires |ps| > 0
    ensures above + below == MaxY(ps) - MinY(ps)
    ensures VarianceY(ps, MeanY(ps)) <= |ps| as real * (above * below)
  {
    above, below := MeanY(ps) - MinY(ps), MaxY(ps) - MeanY(ps);
    ExtremesBound(ps);
    BetweenTotal(ps, MinY(ps), MaxY(ps));
    BetweenAroundMean(ps, MinY(ps), MaxY(ps), above, below);
  }

  // Range-versus-variance inequality: n points in [lo, hi] have a centred sum
  // of squares of at most n*(hi - lo)^2/4, since (y - lo)*(hi - y) >= 0.
  lemma VarianceAtMostRange(ps: seq<Point>, range: real)
    requires |ps| > 0 && range == MaxY(ps) - MinY(ps)
    ensures VarianceY(ps, MeanY(ps)) <= |ps| as real * (range * range / 4.0)
  {
    var above, below := VarianceAtMostProduct(ps);
    QuarterRange(VarianceY(ps, MeanY(ps)), |ps| as real, above, below, range);
  }
}
