/**
  Straight-line least squares over the reals: the closed form `numpy.polyfit(xs, ys, 1)` computes is the
  one line that minimises the squared error.
 */
module LeastSquares {

  // ---------------------------------------------------------------- products, one at a time

  function Mul(p: real, q: real): real { p * q }

  function Sq(r: real): real { Mul(r, r) }

  lemma PositiveProduct(p: real, q: real)
    requires p > 0.0 && q > 0.0
    ensures Mul(p, q) > 0.0
  {
  }

  lemma OppositeSquare(r: real, p: real)
    requires p == 0.0 - r
    ensures Mul(p, p) == Mul(r, r)
  {
  }

  lemma ZeroTimes(q: real)
    ensures Mul(0.0, q) == 0.0 && Mul(q, 0.0) == 0.0
  {
  }

  lemma SquareSign(r: real)
    ensures Sq(r) >= 0.0
    ensures Sq(r) == 0.0 <==> r == 0.0
  {
    hide Mul;
    if r > 0.0 {
      PositiveProduct(r, r);
    } else if r < 0.0 {
      var p := 0.0 - r;
      PositiveProduct(p, p);
      OppositeSquare(r, p);
    } else {
      ZeroTimes(r);
    }
  }

  lemma MulSigns(p: real, q: real)
    ensures p > 0.0 && q > 0.0 ==> Mul(p, q) > 0.0
    ensures p > 0.0 && q >= 0.0 ==> Mul(p, q) >= 0.0
    ensures p > 0.0 && q <= 0.0 ==> Mul(p, q) <= 0.0
    ensures p > 0.0 && q < 0.0 ==> Mul(p, q) < 0.0
    ensures Mul(p, q) > 0.0 && p > 0.0 ==> q > 0.0
    ensures Mul(p, q) >= 0.0 && p > 0.0 ==> q >= 0.0
  {
  }

  // ---------------------------------------------------------------- sums of a paired series

  datatype Line = Line(slope: real, intercept: real)

  datatype Moments = Moments(n: real, sx: real, sy: real, sxx: real, sxy: real, syy: real)

  function Add(m: Moments, x: real, y: real): Moments {
    Moments(m.n + 1.0, m.sx + x, m.sy + y, m.sxx + x * x, m.sxy + x * y, m.syy + y * y)
  }

  function Sums(xs: seq<real>, ys: seq<real>): (m: Moments)
    requires |xs| == |ys|
    ensures m.n == |xs| as real
  {
    if xs == [] then Moments(0.0, 0.0, 0.0, 0.0, 0.0, 0.0)
    else
      var k := |xs| - 1;
      Add(Sums(xs[..k], ys[..k]), xs[k], ys[k])
  }

  /** n * sum(x*y) - sum(x) * sum(y). */
  function Cross(m: Moments): real { m.n * m.sxy - m.sx * m.sy }

  /** n * sum(x*x) - sum(x)^2. */
  function Spread(m: Moments): real { m.n * m.sxx - m.sx * m.sx }

  function Residual(x: real, y: real, l: Line): real {
    y - (l.slope * x + l.intercept)
  }

  function SquaredError(xs: seq<real>, ys: seq<real>, l: Line): (e: real)
    requires |xs| == |ys|
    ensures e >= 0.0
  {
    if xs == [] then 0.0
    else
      var k := |xs| - 1;
      var r := Residual(xs[k], ys[k], l);
      SquareSign(r);
      SquaredError(xs[..k], ys[..k], l) + Sq(r)
  }

  /** The squared error as a quadratic in the two coefficients. */
  function Quadratic(m: Moments, l: Line): real {
    var a, b := l.slope, l.intercept;
    m.syy - 2.0 * (a * m.sxy) - 2.0 * (b * m.sy) + (a * a) * m.sxx + 2.0 * ((a * b) * m.sx) + (b * b) * m.n
  }

  lemma ResidualSquare(x: real, y: real, a: real, b: real)
    ensures Sq(Residual(x, y, Line(a, b)))
         == y * y - 2.0 * (a * (x * y)) - 2.0 * (b * y) + (a * a) * (x * x) + 2.0 * ((a * b) * x) + b * b
  {
    var p := a * x;
    assert Sq(y - (p + b)) == y * y - 2.0 * (p * y) - 2.0 * (b * y) + p * p + 2.0 * (p * b) + b * b;
    assert p * y == a * (x * y);
    assert p * p == (a * a) * (x * x);
    assert p * b == (a * b) * x;
  }

  lemma QuadraticStep(m: Moments, x: real, y: real, l: Line)
    ensures Quadratic(Add(m, x, y), l) == Quadratic(m, l) + Sq(Residual(x, y, l))
  {
    var a, b := l.slope, l.intercept;
    ResidualSquare(x, y, a, b);
    assert a * (m.sxy + x * y) == a * m.sxy + a * (x * y);
    assert b * (m.sy + y) == b * m.sy + b * y;
    assert (a * a) * (m.sxx + x * x) == (a * a) * m.sxx + (a * a) * (x * x);
    assert (a * b) * (m.sx + x) == (a * b) * m.sx + (a * b) * x;
    assert (b * b) * (m.n + 1.0) == (b * b) * m.n + b * b;
  }

  lemma {:induction false} ErrorIsQuadratic(xs: seq<real>, ys: seq<real>, l: Line)
    requires |xs| == |ys|
    ensures SquaredError(xs, ys, l) == Quadratic(Sums(xs, ys), l)
  {
    if xs == [] {
      assert Quadratic(Sums(xs, ys), l) == 0.0;
    }
    hide Quadratic, Residual, Add, Sq;
    if xs != [] {
      var k := |xs| - 1;
      ErrorIsQuadratic(xs[..k], ys[..k], l);
      QuadraticStep(Sums(xs[..k], ys[..k]), xs[k], ys[k], l);
    }
  }

  // ---------------------------------------------------------------- co-deviations

  /** sum of (x - xs[i]) * (y - ys[i]). */
  function CoDeviation(xs: seq<real>, ys: seq<real>, x: real, y: real): real
    requires |xs| == |ys|
  {
    if xs == [] then 0.0
    else
      var k := |xs| - 1;
      CoDeviation(xs[..k], ys[..k], x, y) + Mul(x - xs[k], y - ys[k])
  }

  function CoFromSums(m: Moments, x: real, y: real): real {
    m.n * (x * y) - x * m.sy - y * m.sx + m.sxy
  }

  lemma CoFromSumsStep(m: Moments, px: real, py: real, x: real, y: real)
    ensures CoFromSums(Add(m, px, py), x, y) == CoFromSums(m, x, y) + Mul(x - px, y - py)
  {
    var p := x * y;
    assert Mul(x - px, y - py) == p - x * py - y * px + px * py;
    assert (m.n + 1.0) * p == m.n * p + p;
    assert x * (m.sy + py) == x * m.sy + x * py;
    assert y * (m.sx + px) == y * m.sx + y * px;
  }

  lemma {:induction false} CoDeviationFromSums(xs: seq<real>, ys: seq<real>, x: real, y: real)
    requires |xs| == |ys|
    ensures CoDeviation(xs, ys, x, y) == CoFromSums(Sums(xs, ys), x, y)
  {
    if xs == [] {
      assert CoFromSums(Sums(xs, ys), x, y) == 0.0;
    }
    hide CoFromSums, Add, Mul;
    if xs != [] {
      var k := |xs| - 1;
      CoDeviationFromSums(xs[..k], ys[..k], x, y);
      CoFromSumsStep(Sums(xs[..k], ys[..k]), xs[k], ys[k], x, y);
    }
  }

  lemma CrossAlgebra(m: Moments, x: real, y: real)
    ensures Cross(Add(m, x, y)) == Cross(m) + CoFromSums(m, x, y)
  {
    var p := x * y;
    assert (m.n + 1.0) * (m.sxy + p) == m.n * m.sxy + m.n * p + m.sxy + p;
    assert (m.sx + x) * (m.sy + y) == m.sx * m.sy + m.sx * y + x * m.sy + p;
  }

  /** The last pair adds its co-deviations from all the earlier ones. */
  lemma CrossStep(xs: seq<real>, ys: seq<real>)
    requires |xs| == |ys| && xs != []
    ensures
      var k := |xs| - 1;
      Cross(Sums(xs, ys)) == Cross(Sums(xs[..k], ys[..k])) + CoDeviation(xs[..k], ys[..k], xs[k], ys[k])
  {
    hide Cross, CoFromSums, Add, CoDeviation;
    var k := |xs| - 1;
    CoDeviationFromSums(xs[..k], ys[..k], xs[k], ys[k]);
    CrossAlgebra(Sums(xs[..k], ys[..k]), xs[k], ys[k]);
  }

  lemma {:induction false} SquareDeviations(xs: seq<real>, x: real)
    ensures CoDeviation(xs, xs, x, x) >= 0.0
    ensures (exists i :: 0 <= i < |xs| && xs[i] != x) ==> CoDeviation(xs, xs, x, x) > 0.0
  {
    hide Mul;
    if xs != [] {
      var k := |xs| - 1;
      SquareDeviations(xs[..k], x);
      SquareSign(x - xs[k]);
      if xs[k] == x && exists i :: 0 <= i < |xs| && xs[i] != x {
        var i :| 0 <= i < |xs| && xs[i] != x;
        assert xs[..k][i] != x;
      }
    }
  }

  /** The sums that only read the abscissae do not depend on the ordinates. */
  lemma {:induction false} SumsOfAbscissae(xs: seq<real>, ys: seq<real>)
    requires |xs| == |ys|
    ensures
      var m, d := Sums(xs, ys), Sums(xs, xs);
      d.n == m.n && d.sx == m.sx && d.sy == m.sx && d.sxy == m.sxx && d.sxx == m.sxx
  {
    if xs != [] {
      var k := |xs| - 1;
      SumsOfAbscissae(xs[..k], ys[..k]);
      AddOfAbscissae(Sums(xs[..k], ys[..k]), Sums(xs[..k], xs[..k]), xs[k], ys[k]);
      hide Add;
    }
  }

  lemma AddOfAbscissae(m: Moments, d: Moments, x: real, y: real)
    requires d.n == m.n && d.sx == m.sx && d.sy == m.sx && d.sxy == m.sxx && d.sxx == m.sxx
    ensures
      var m', d' := Add(m, x, y), Add(d, x, x);
      d'.n == m'.n && d'.sx == m'.sx && d'.sy == m'.sx && d'.sxy == m'.sxx && d'.sxx == m'.sxx
  {
  }

  lemma SpreadOfAbscissae(m: Moments, d: Moments)
    requires d.n == m.n && d.sx == m.sx && d.sy == m.sx && d.sxy == m.sxx
    ensures Spread(m) == Cross(d)
  {
  }

  lemma {:induction false} SpreadIsCross(xs: seq<real>, ys: seq<real>)
    requires |xs| == |ys|
    ensures Spread(Sums(xs, ys)) == Cross(Sums(xs, xs))
  {
    hide Sums, Spread, Cross;
    SumsOfAbscissae(xs, ys);
    SpreadOfAbscissae(Sums(xs, ys), Sums(xs, xs));
  }

  lemma EmptyCross(xs: seq<real>, ys: seq<real>)
    requires xs == [] == ys
    ensures Cross(Sums(xs, ys)) == 0.0
  {
  }

  ghost predicate Varied(xs: seq<real>) {
    exists i, j :: 0 <= i < j < |xs| && xs[i] != xs[j]
  }

  lemma {:induction false} SelfCrossPositive(xs: seq<real>)
    ensures Cross(Sums(xs, xs)) >= 0.0
    ensures Varied(xs) ==> Cross(Sums(xs, xs)) > 0.0
  {
    hide Cross, Sums, CoDeviation;
    if xs == [] {
      EmptyCross(xs, xs);
    } else {
      var k := |xs| - 1;
      SelfCrossPositive(xs[..k]);
      CrossStep(xs, xs);
      SquareDeviations(xs[..k], xs[k]);
      if Varied(xs) && !Varied(xs[..k]) {
        forall a, b | 0 <= a < b < k ensures xs[a] == xs[b] {
          assert xs[..k][a] == xs[a] && xs[..k][b] == xs[b];
        }
        var i, j :| 0 <= i < j < |xs| && xs[i] != xs[j];
        assert xs[..k][i] == xs[i] != xs[k];
      }
    }
  }

  /** Abscissae that are not all equal have positive spread, so the fit is defined. */
  lemma SpreadPositive(xs: seq<real>, ys: seq<real>)
    requires |xs| == |ys| && Varied(xs)
    ensures Spread(Sums(xs, ys)) > 0.0 && Sums(xs, ys).n > 0.0
  {
    hide Spread, Cross;
    SelfCrossPositive(xs);
    SpreadIsCross(xs, ys);
  }

  // ---------------------------------------------------------------- the fit

  function FitOf(m: Moments): Line
    requires m.n > 0.0 && Spread(m) > 0.0
  {
    var slope := Cross(m) / Spread(m);
    Line(slope, (m.sy - slope * m.sx) / m.n)
  }

  function Fit(xs: seq<real>, ys: seq<real>): Line
    requires |xs| == |ys| && Varied(xs)
  {
    SpreadPositive(xs, ys);
    FitOf(Sums(xs, ys))
  }

  ghost predicate Normal(m: Moments, l: Line) {
    && l.slope * m.sx + l.intercept * m.n == m.sy
    && l.slope * m.sxx + l.intercept * m.sx == m.sxy
  }

  lemma NormalEquations(m: Moments)
    requires m.n > 0.0 && Spread(m) > 0.0
    ensures Normal(m, FitOf(m))
  {
    var d := Spread(m);
    var s := Cross(m) / d;
    var b := (m.sy - s * m.sx) / m.n;
    assert s * d == Cross(m);
    assert b * m.n == m.sy - s * m.sx;
    SecondNormalEquation(m.n, m.sx, m.sy, m.sxx, m.sxy, s, b);
  }

  lemma SecondNormalEquation(n: real, sx: real, sy: real, sxx: real, sxy: real, s: real, b: real)
    requires n > 0.0
    requires s * (n * sxx - sx * sx) == n * sxy - sx * sy
    requires b * n == sy - s * sx
    ensures s * sxx + b * sx == sxy
  {
    var lhs := s * sxx + b * sx;
    assert n * lhs == s * (n * sxx) + (b * n) * sx;
    assert (b * n) * sx == sy * sx - (s * sx) * sx;
    assert s * (n * sxx - sx * sx) == s * (n * sxx) - (s * sx) * sx;
    assert n * lhs == n * sxy;
  }

  /** What the squared error gains when the coefficients move by (u, v) away from the fit. */
  function Excess(m: Moments, u: real, v: real): real {
    (u * u) * m.sxx + 2.0 * ((u * v) * m.sx) + (v * v) * m.n
  }

  lemma QuadraticExcess(m: Moments, l: Line, u: real, v: real)
    requires Normal(m, l)
    ensures Quadratic(m, Line(l.slope + u, l.intercept + v)) == Quadratic(m, l) + Excess(m, u, v)
  {
    var s, b := l.slope, l.intercept;
    assert (s + u) * m.sxy == s * m.sxy + u * m.sxy;
    assert (b + v) * m.sy == b * m.sy + v * m.sy;
    assert ((s + u) * (s + u)) * m.sxx == (s * s) * m.sxx + 2.0 * (u * (s * m.sxx)) + (u * u) * m.sxx;
    assert ((s + u) * (b + v)) * m.sx == (s * b) * m.sx + u * (b * m.sx) + v * (s * m.sx) + (u * v) * m.sx;
    assert ((b + v) * (b + v)) * m.n == (b * b) * m.n + 2.0 * (v * (b * m.n)) + (v * v) * m.n;
    assert u * (s * m.sxx) + u * (b * m.sx) == u * m.sxy;
    assert v * (s * m.sx) + v * (b * m.n) == v * m.sy;
  }

  /** n times the excess is a square plus the spread times a square. */
  lemma ExcessCompleted(n: real, sx: real, sxx: real, u: real, v: real)
    ensures n * ((u * u) * sxx + 2.0 * ((u * v) * sx) + (v * v) * n)
         == (u * sx + v * n) * (u * sx + v * n) + (u * u) * (n * sxx - sx * sx)
  {
    var w := u * sx + v * n;
    assert w * w == (u * u) * (sx * sx) + 2.0 * ((u * v) * (sx * n)) + (v * v) * (n * n);
    assert n * ((u * u) * sxx) == (u * u) * (n * sxx);
    assert n * (2.0 * ((u * v) * sx)) == 2.0 * ((u * v) * (sx * n));
    assert n * ((v * v) * n) == (v * v) * (n * n);
    assert (u * u) * (n * sxx - sx * sx) == (u * u) * (n * sxx) - (u * u) * (sx * sx);
  }

  lemma ExcessAsSquares(m: Moments, u: real, v: real)
    ensures Mul(m.n, Excess(m, u, v)) == Sq(u * m.sx + v * m.n) + Mul(Sq(u), Spread(m))
  {
    ExcessCompleted(m.n, m.sx, m.sxx, u, v);
  }

  lemma OnlyTheOffset(u: real, v: real, sx: real, n: real)
    requires n > 0.0
    ensures u == 0.0 && v != 0.0 ==> u * sx + v * n != 0.0
  {
    if u == 0.0 && v != 0.0 {
      assert u * sx == 0.0;
      if v > 0.0 {
        assert v * n > 0.0;
      } else {
        assert -v * n > 0.0;
      }
    }
  }

  lemma ExcessNonNegative(m: Moments, u: real, v: real)
    requires m.n > 0.0 && Spread(m) > 0.0
    ensures Excess(m, u, v) >= 0.0
    ensures Excess(m, u, v) == 0.0 ==> u == 0.0 && v == 0.0
  {
    hide Excess, Spread, Mul, Sq;
    var w := u * m.sx + v * m.n;
    var excess, spread := Excess(m, u, v), Spread(m);
    ExcessAsSquares(m, u, v);
    OnlyTheOffset(u, v, m.sx, m.n);
    SquareSign(u);
    SquareSign(w);
    MulSigns(m.n, excess);
    MulSigns(Sq(u), spread);
    ZeroTimes(spread);
    ZeroTimes(m.n);
  }

  /** The fit minimises the squared error over every line, and it is the only line that does. */
  lemma FitIsTheMinimiser(xs: seq<real>, ys: seq<real>, l: Line)
    requires |xs| == |ys| && Varied(xs)
    ensures SquaredError(xs, ys, Fit(xs, ys)) <= SquaredError(xs, ys, l)
    ensures SquaredError(xs, ys, l) <= SquaredError(xs, ys, Fit(xs, ys)) ==> l == Fit(xs, ys)
  {
    hide Quadratic, Excess, Spread, Normal, FitOf, SquaredError, Sums, Varied;
    var m := Sums(xs, ys);
    SpreadPositive(xs, ys);
    var fit := Fit(xs, ys);
    NormalEquations(m);
    var u, v := l.slope - fit.slope, l.intercept - fit.intercept;
    QuadraticExcess(m, fit, u, v);
    ExcessNonNegative(m, u, v);
    ErrorIsQuadratic(xs, ys, l);
    ErrorIsQuadratic(xs, ys, fit);
    assert Line(fit.slope + u, fit.intercept + v) == l;
  }

  // ---------------------------------------------------------------- zero error, affine changes of abscissa

  /** n * sum(y*y) - sum(y)^2. */
  function Deviation(m: Moments): real { m.n * m.syy - m.sy * m.sy }

  lemma ErrorAlgebra(n: real, sx: real, sy: real, sxx: real, sxy: real, syy: real, s: real, b: real)
    requires s * sx + b * n == sy && s * sxx + b * sx == sxy
    ensures syy - 2.0 * (s * sxy) - 2.0 * (b * sy) + (s * s) * sxx + 2.0 * ((s * b) * sx) + (b * b) * n == syy - s * sxy - b * sy
  {
    assert s * sxy == (s * s) * sxx + (s * b) * sx;
    assert b * sy == (s * b) * sx + (b * b) * n;
  }

  lemma ExplainedAlgebra(n: real, sx: real, sy: real, sxy: real, syy: real, s: real, b: real)
    requires b * n == sy - s * sx
    ensures n * (syy - s * sxy - b * sy) == n * syy - sy * sy - s * (n * sxy - sx * sy)
  {
    assert n * (b * sy) == (b * n) * sy;
    assert (sy - s * sx) * sy == sy * sy - s * (sx * sy);
    assert n * (s * sxy) == s * (n * sxy);
  }

  /** What the fitted line leaves of the deviation, and what it explains: the slope times the cross sum. */
  lemma FitLeaves(m: Moments)
    requires m.n > 0.0 && Spread(m) > 0.0
    ensures m.n * Quadratic(m, FitOf(m)) == Deviation(m) - FitOf(m).slope * Cross(m)
    ensures FitOf(m).slope * Spread(m) == Cross(m)
  {
    var l := FitOf(m);
    NormalEquations(m);
    ErrorAlgebra(m.n, m.sx, m.sy, m.sxx, m.sxy, m.syy, l.slope, l.intercept);
    ExplainedAlgebra(m.n, m.sx, m.sy, m.sxy, m.syy, l.slope, l.intercept);
  }

  /** The horizontal line through the mean leaves the whole deviation. */
  lemma MeanLeaves(m: Moments, mean: real)
    requires mean * m.n == m.sy
    ensures m.n * Quadratic(m, Line(0.0, mean)) == Deviation(m)
  {
    assert (mean * mean) * m.n == mean * m.sy;
    assert Quadratic(m, Line(0.0, mean)) == m.syy - mean * m.sy;
    assert m.n * (mean * m.sy) == m.sy * m.sy;
  }

  lemma {:induction false} SumsOfOrdinates(xs: seq<real>, ys: seq<real>)
    requires |xs| == |ys|
    ensures var m, d := Sums(xs, ys), Sums(ys, ys); d.n == m.n && d.sx == m.sy && d.sy == m.sy && d.sxy == m.syy
  {
    if xs != [] {
      var k := |xs| - 1;
      SumsOfOrdinates(xs[..k], ys[..k]);
      hide Sums;
      SumsSnoc(xs, ys);
      SumsSnoc(ys, ys);
    }
  }

  lemma SumsSnoc(xs: seq<real>, ys: seq<real>)
    requires |xs| == |ys| && xs != []
    ensures var k := |xs| - 1; Sums(xs, ys) == Add(Sums(xs[..k], ys[..k]), xs[k], ys[k])
  {
  }

  lemma DeviationPositive(xs: seq<real>, ys: seq<real>)
    requires |xs| == |ys| && Varied(ys)
    ensures Deviation(Sums(xs, ys)) > 0.0
  {
    hide Sums;
    SumsOfOrdinates(xs, ys);
    SelfCrossPositive(ys);
  }

  ghost predicate OnLine(xs: seq<real>, ys: seq<real>, l: Line)
    requires |xs| == |ys|
  {
    forall i :: 0 <= i < |xs| ==> Residual(xs[i], ys[i], l) == 0.0
  }

  lemma {:induction false} NoErrorIffOnLine(xs: seq<real>, ys: seq<real>, l: Line)
    requires |xs| == |ys|
    ensures SquaredError(xs, ys, l) == 0.0 <==> OnLine(xs, ys, l)
  {
    hide Residual, Sq;
    if xs != [] {
      var k := |xs| - 1;
      SquareSign(Residual(xs[k], ys[k], l));
      NoErrorIffOnLine(xs[..k], ys[..k], l);
      if OnLine(xs[..k], ys[..k], l) && Residual(xs[k], ys[k], l) == 0.0 {
        forall i | 0 <= i < |xs| ensures Residual(xs[i], ys[i], l) == 0.0 {
          if i < k {
            assert Residual(xs[..k][i], ys[..k][i], l) == 0.0;
          }
        }
      }
      if OnLine(xs, ys, l) {
        forall i | 0 <= i < k ensures Residual(xs[..k][i], ys[..k][i], l) == 0.0 {
          assert Residual(xs[i], ys[i], l) == 0.0;
        }
      }
    }
  }

  /** Points on a line are fitted by that line. */
  lemma AffineIsFitted(xs: seq<real>, ys: seq<real>, l: Line)
    requires |xs| == |ys| && Varied(xs) && OnLine(xs, ys, l)
    ensures Fit(xs, ys) == l
  {
    hide Fit, OnLine, SquaredError;
    NoErrorIffOnLine(xs, ys, l);
    FitIsTheMinimiser(xs, ys, l);
  }

  ghost predicate Rescaled(xs: seq<real>, ws: seq<real>, scale: real, shift: real) {
    |ws| == |xs| && forall i :: 0 <= i < |xs| ==> ws[i] == scale * xs[i] + shift
  }

  function InUnits(l: Line, scale: real, shift: real): Line {
    Line(l.slope * scale, l.slope * shift + l.intercept)
  }

  lemma ResidualRescales(x: real, w: real, y: real, scale: real, shift: real, l: Line)
    requires w == scale * x + shift
    ensures Residual(w, y, l) == Residual(x, y, InUnits(l, scale, shift))
  {
    assert l.slope * w == (l.slope * scale) * x + l.slope * shift;
  }

  lemma {:induction false} ErrorRescales(xs: seq<real>, ws: seq<real>, ys: seq<real>, scale: real, shift: real, l: Line)
    requires |xs| == |ys| && Rescaled(xs, ws, scale, shift)
    ensures SquaredError(ws, ys, l) == SquaredError(xs, ys, InUnits(l, scale, shift))
  {
    hide Residual, InUnits, Sq;
    if xs != [] {
      var k := |xs| - 1;
      assert Rescaled(xs[..k], ws[..k], scale, shift);
      ErrorRescales(xs[..k], ws[..k], ys[..k], scale, shift, l);
      ResidualRescales(xs[k], ws[k], ys[k], scale, shift, l);
    }
  }

  /** The line over the rescaled abscissae that means the same as `l` over the original ones. */
  lemma Unscaled(l: Line, scale: real, shift: real) returns (moved: Line)
    requires scale != 0.0
    ensures moved.slope == l.slope / scale && InUnits(moved, scale, shift) == l
  {
    var a := l.slope / scale;
    moved := Line(a, l.intercept - a * shift);
    assert a * scale == l.slope;
  }

  lemma VariedRescales(xs: seq<real>, ws: seq<real>, scale: real, shift: real)
    requires Varied(xs) && Rescaled(xs, ws, scale, shift) && scale != 0.0
    ensures Varied(ws)
  {
    var i, j :| 0 <= i < j < |xs| && xs[i] != xs[j];
    ImagesDiffer(xs[i], xs[j], ws[i], ws[j], scale, shift);
  }

  lemma ImagesDiffer(x: real, x': real, w: real, w': real, scale: real, shift: real)
    requires scale != 0.0 && x != x' && w == scale * x + shift && w' == scale * x' + shift
    ensures w != w'
  {
    assert (w - w') / scale == x - x';
  }

  /** Measuring the abscissa in another unit and from another origin divides the slope by the unit. */
  lemma SlopeRescales(xs: seq<real>, ws: seq<real>, ys: seq<real>, scale: real, shift: real)
    requires |xs| == |ys| && Varied(xs) && Rescaled(xs, ws, scale, shift) && scale != 0.0
    ensures Varied(ws)
    ensures Fit(ws, ys).slope == Fit(xs, ys).slope / scale
  {
    VariedRescales(xs, ws, scale, shift);
    hide SquaredError, Rescaled, Varied, InUnits, FitOf, Fit;
    var moved := Unscaled(Fit(xs, ys), scale, shift);
    var best := Fit(ws, ys);
    ErrorRescales(xs, ws, ys, scale, shift, moved);
    ErrorRescales(xs, ws, ys, scale, shift, best);
    FitIsTheMinimiser(xs, ys, InUnits(best, scale, shift));
    FitIsTheMinimiser(ws, ys, moved);
  }

  // ---------------------------------------------------------------- falling series

  ghost predicate Increasing(xs: seq<real>) {
    forall i, j :: 0 <= i < j < |xs| ==> xs[i] < xs[j]
  }

  ghost predicate NonIncreasing(ys: seq<real>) {
    forall i, j :: 0 <= i <= j < |ys| ==> ys[i] >= ys[j]
  }

  lemma {:induction false} FallingCoDeviation(xs: seq<real>, ys: seq<real>, x: real, y: real)
    requires |xs| == |ys|
    requires forall i :: 0 <= i < |xs| ==> xs[i] < x && ys[i] >= y
    ensures CoDeviation(xs, ys, x, y) <= 0.0
    ensures xs != [] && ys[0] > y ==> CoDeviation(xs, ys, x, y) < 0.0
  {
    hide Mul;
    if xs != [] {
      var k := |xs| - 1;
      FallingCoDeviation(xs[..k], ys[..k], x, y);
      MulSigns(x - xs[k], y - ys[k]);
      if k > 0 {
        assert ys[..k][0] == ys[0];
      } else {
        assert xs[..k] == [];
      }
    }
  }

  lemma {:induction false} FallingCross(xs: seq<real>, ys: seq<real>)
    requires |xs| == |ys| && Increasing(xs) && NonIncreasing(ys)
    ensures Cross(Sums(xs, ys)) <= 0.0
    ensures xs != [] && ys[0] > ys[|ys| - 1] ==> Cross(Sums(xs, ys)) < 0.0
  {
    hide Cross, Sums, CoDeviation;
    if xs == [] {
      EmptyCross(xs, ys);
    } else {
      var k := |xs| - 1;
      FallingCross(xs[..k], ys[..k]);
      CrossStep(xs, ys);
      FallingCoDeviation(xs[..k], ys[..k], xs[k], ys[k]);
      if k > 0 {
        assert ys[..k][0] == ys[0];
      }
    }
  }

  /** A series that never rises and ends lower than it began has a strictly negative slope. */
  lemma FallingSlope(xs: seq<real>, ys: seq<real>)
    requires |xs| == |ys| >= 2 && Increasing(xs) && NonIncreasing(ys) && ys[0] > ys[|ys| - 1]
    ensures Varied(xs) && Fit(xs, ys).slope < 0.0
  {
    hide Cross, Sums, Spread;
    assert xs[0] != xs[1];
    SpreadPositive(xs, ys);
    FallingCross(xs, ys);
    NegativeQuotient(Cross(Sums(xs, ys)), Spread(Sums(xs, ys)));
  }

  lemma NegativeQuotient(a: real, d: real)
    requires a < 0.0 < d
    ensures a / d < 0.0
  {
  }
}
