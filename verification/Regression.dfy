/** Least-squares regression as the forecast computes it: sums in one loop, residuals in a second one,
    over real numbers. */
module Regression {
  import opened Reals

  // ---------------------------------------------------------------- vectors

  type Vector = seq<real>

  function Dot(p: Vector, q: Vector): real
    requires |p| == |q|
  {
    if p == [] then 0.0
    else
      var k := |p| - 1;
      Dot(p[..k], q[..k]) + Times(p[k], q[k])
  }

  function Ones(n: nat): (s: Vector)
    ensures |s| == n
  {
    seq(n, _ => 1.0)
  }

  function Total(p: Vector): real {
    Dot(Ones(|p|), p)
  }

  /** The values of the line with slope a and intercept b. */
  function Line(xs: Vector, a: real, b: real): (s: Vector)
    ensures |s| == |xs|
  {
    seq(|xs|, i requires 0 <= i < |xs| => Times(a, xs[i]) + b)
  }

  function Minus(p: Vector, q: Vector): (s: Vector)
    requires |p| == |q|
    ensures |s| == |p|
  {
    seq(|p|, i requires 0 <= i < |p| => p[i] - q[i])
  }

  lemma {:induction false} DotSymmetric(p: Vector, q: Vector)
    requires |p| == |q|
    ensures Dot(p, q) == Dot(q, p)
  {
    if p != [] {
      var k := |p| - 1;
      DotSymmetric(p[..k], q[..k]);
      Commute(p[k], q[k]);
    }
  }

  lemma {:induction false} DotMinus(p: Vector, q: Vector, r: Vector)
    requires |p| == |q| == |r|
    ensures Dot(p, Minus(q, r)) == Dot(p, q) - Dot(p, r)
  {
    if p != [] {
      var k := |p| - 1;
      DotMinus(p[..k], q[..k], r[..k]);
      assert Minus(q, r)[..k] == Minus(q[..k], r[..k]);
      Distribute(p[k], q[k], r[k]);
    }
  }

  lemma {:induction false} PointOnLine(p: real, x: real, a: real, b: real)
    ensures Times(p, Times(a, x) + b) == Times(a, Times(p, x)) + Times(b, Times(1.0, p))
  {
    Distribute(p, Times(a, x), b);
    Associate(p, a, x);
    Commute(p, a);
    Associate(a, p, x);
    One(p);
    Commute(p, b);
  }

  lemma {:induction false} DotLine(p: Vector, xs: Vector, a: real, b: real)
    requires |p| == |xs|
    ensures Dot(p, Line(xs, a, b)) == Times(a, Dot(p, xs)) + Times(b, Total(p))
  {
    if p == [] {
      Zero(a);
      Zero(b);
    } else {
      var k := |p| - 1;
      DotLine(p[..k], xs[..k], a, b);
      assert Line(xs, a, b)[..k] == Line(xs[..k], a, b);
      assert Ones(k + 1)[..k] == Ones(k);
      PointOnLine(p[k], xs[k], a, b);
      Distribute(a, Dot(p[..k], xs[..k]), Times(p[k], xs[k]));
      Distribute(b, Total(p[..k]), Times(1.0, p[k]));
    }
  }

  lemma {:induction false} DotSelf(p: Vector)
    ensures Dot(p, p) >= 0.0
    ensures Dot(p, p) == 0.0 <==> forall k :: 0 <= k < |p| ==> p[k] == 0.0
  {
    if p != [] {
      var k := |p| - 1;
      DotSelf(p[..k]);
      Square(p[k]);
      assert forall i :: 0 <= i < k ==> p[..k][i] == p[i];
      if Dot(p, p) == 0.0 {
        assert forall i :: 0 <= i < k ==> p[i] == 0.0 by {
          assert forall i :: 0 <= i < k ==> p[..k][i] == 0.0;
        }
      }
    }
  }

  lemma {:induction false} SquareOfMinus(p: Vector, q: Vector)
    requires |p| == |q|
    ensures Dot(Minus(p, q), Minus(p, q)) == Dot(p, p) - 2.0 * Dot(p, q) + Dot(q, q)
  {
    var d := Minus(p, q);
    DotMinus(d, p, q);
    DotSymmetric(d, p);
    DotSymmetric(d, q);
    DotMinus(p, p, q);
    DotMinus(q, p, q);
    DotSymmetric(q, p);
  }

  lemma {:induction false} TotalOfOnes(n: nat)
    ensures Total(Ones(n)) == n as real
  {
    if n > 0 {
      TotalOfOnes(n - 1);
      One(1.0);
      assert Ones(n)[..n - 1] == Ones(n - 1);
    }
  }

  // ---------------------------------------------------------------- the fit

  function Residuals(xs: Vector, ys: Vector, a: real, b: real): (s: Vector)
    requires |xs| == |ys|
    ensures |s| == |xs|
  {
    Minus(ys, Line(xs, a, b))
  }

  /** The sum of squared residuals of a line. */
  function SquaredError(xs: Vector, ys: Vector, a: real, b: real): real
    requires |xs| == |ys|
  {
    Dot(Residuals(xs, ys, a, b), Residuals(xs, ys, a, b))
  }

  function Denominator(xs: Vector): real {
    Times(|xs| as real, Dot(xs, xs)) - Times(Total(xs), Total(xs))
  }

  function Mean(ys: Vector): real
    requires |ys| > 0
  {
    Total(ys) / |ys| as real
  }

  datatype Fit = Fit(slope: real, intercept: real, r2: real)

  function Slope(xs: Vector, ys: Vector): real
    requires |xs| == |ys| > 0 && Denominator(xs) != 0.0
  {
    (Times(|xs| as real, Dot(xs, ys)) - Times(Total(xs), Total(ys))) / Denominator(xs)
  }

  function R2(part: real, total: real): real {
    if total == 0.0 then 1.0 else 1.0 - part / total
  }

  function FitOf(xs: Vector, ys: Vector): Fit
    requires |xs| == |ys| > 0
  {
    if Denominator(xs) == 0.0 then Fit(0.0, Mean(ys), 0.0)
    else
      var a := Slope(xs, ys);
      var b := (Total(ys) - Times(a, Total(xs))) / |xs| as real;
      Fit(a, b, R2(SquaredError(xs, ys, a, b), SquaredError(xs, ys, 0.0, Mean(ys))))
  }

  predicate AllEqual(xs: Vector) {
    forall i, j :: 0 <= i < |xs| && 0 <= j < |xs| ==> xs[i] == xs[j]
  }

  // ---------------------------------------------------------------- the denominator

  /** The xs measured from their mean m = Total / n. */
  lemma {:induction false} CentredSums(xs: Vector, n: real, m: real)
    requires n == |xs| as real && n > 0.0 && Times(m, n) == Total(xs)
    ensures Total(Line(xs, 1.0, -m)) == 0.0
    ensures Dot(Line(xs, 1.0, -m), Line(xs, 1.0, -m)) == Dot(xs, xs) - Times(m, Total(xs))
  {
    var w := Line(xs, 1.0, -m);
    DotLine(Ones(|xs|), xs, 1.0, -m);
    TotalOfOnes(|xs|);
    One(Total(xs));
    Negate(m, n);
    assert Total(w) == 0.0;
    DotLine(xs, xs, 1.0, -m);
    One(Dot(xs, xs));
    Negate(m, Total(xs));
    DotSymmetric(w, xs);
    DotLine(w, xs, 1.0, -m);
    One(Dot(w, xs));
    Zero(-m);
  }

  lemma {:induction false} SpreadTimesCount(n: real, m: real, sx: real, sxx: real)
    requires Times(m, n) == sx
    ensures Times(n, sxx - Times(m, sx)) == Times(n, sxx) - Times(sx, sx)
  {
    Distribute(n, sxx, Times(m, sx));
    Commute(n, m);
    Associate(n, m, sx);
  }

  lemma {:induction false} TotalOfEqual(xs: Vector, c: real)
    requires forall k :: 0 <= k < |xs| ==> xs[k] == c
    ensures Total(xs) == Times(c, |xs| as real)
  {
    if xs == [] {
      Zero(c);
    } else {
      var k := |xs| - 1;
      TotalOfEqual(xs[..k], c);
      assert Ones(k + 1)[..k] == Ones(k);
      Distribute(c, k as real, 1.0);
      One(c);
    }
  }

  /** Cauchy-Schwarz: the denominator is never negative, and it is zero exactly when all xs are equal. */
  lemma {:induction false} DenominatorSign(xs: Vector)
    requires |xs| > 0
    ensures Denominator(xs) >= 0.0
    ensures Denominator(xs) == 0.0 <==> AllEqual(xs)
  {
    var n := |xs| as real;
    var m := Total(xs) / n;
    var w := Line(xs, 1.0, -m);
    Quotient(Total(xs), n);
    CentredSums(xs, n, m);
    SpreadTimesCount(n, m, Total(xs), Dot(xs, xs));
    DotSelf(w);
    Sign(n, Dot(w, w));
    assert Denominator(xs) == Times(n, Dot(w, w));
    forall k | 0 <= k < |xs| ensures w[k] == xs[k] - m {
      One(xs[k]);
    }
    assert forall k :: 0 <= k < |xs| ==> (w[k] == 0.0 <==> xs[k] == m);
    if AllEqual(xs) {
      TotalOfEqual(xs, xs[0]);
      Cancel(xs[0], n);
    }
  }

  // ---------------------------------------------------------------- least squares

  /** The residuals of the line are orthogonal to constants and to the xs. */
  ghost predicate Normal(xs: Vector, ys: Vector, a: real, b: real)
    requires |xs| == |ys|
  {
    Total(Residuals(xs, ys, a, b)) == 0.0 && Dot(xs, Residuals(xs, ys, a, b)) == 0.0
  }

  lemma {:induction false} ResidualSums(xs: Vector, ys: Vector, a: real, b: real)
    requires |xs| == |ys|
    ensures Total(Residuals(xs, ys, a, b)) == Total(ys) - (Times(a, Total(xs)) + Times(b, |xs| as real))
    ensures Dot(xs, Residuals(xs, ys, a, b)) == Dot(xs, ys) - (Times(a, Dot(xs, xs)) + Times(b, Total(xs)))
  {
    var one := Ones(|xs|);
    DotMinus(one, ys, Line(xs, a, b));
    DotLine(one, xs, a, b);
    TotalOfOnes(|xs|);
    DotMinus(xs, ys, Line(xs, a, b));
    DotLine(xs, xs, a, b);
  }

  /** The formulas solve the normal equations. */
  lemma {:induction false} Cramer(n: real, sx: real, sy: real, sxx: real, sxy: real, a: real, b: real)
    requires n > 0.0
    requires Times(a, Times(n, sxx) - Times(sx, sx)) == Times(n, sxy) - Times(sx, sy)
    requires Times(b, n) == sy - Times(a, sx)
    ensures sxy - (Times(a, sxx) + Times(b, sx)) == 0.0
  {
    var r := sxy - (Times(a, sxx) + Times(b, sx));
    Distribute(n, sxy, Times(a, sxx) + Times(b, sx));
    Distribute(n, Times(a, sxx), Times(b, sx));
    TimesTwice(n, a, sxx);
    TimesTwice(n, b, sx);
    Distribute(a, Times(n, sxx), Times(sx, sx));
    Commute(Times(b, n), sx);
    Distribute(sx, sy, Times(a, sx));
    Commute(sx, Times(a, sx));
    Associate(a, sx, sx);
    Associate(b, n, sx);
    assert Times(n, r) == 0.0;
    Commute(n, r);
    ZeroProduct(r, n);
  }

  lemma {:induction false} TimesTwice(n: real, a: real, s: real)
    ensures Times(n, Times(a, s)) == Times(a, Times(n, s))
  {
    Associate(n, a, s);
    Commute(n, a);
    Associate(a, n, s);
  }

  lemma {:induction false} FitIsNormal(xs: Vector, ys: Vector)
    requires |xs| == |ys| > 0
    ensures Normal(xs, ys, FitOf(xs, ys).slope, FitOf(xs, ys).intercept)
  {
    var f, n := FitOf(xs, ys), |xs| as real;
    if Denominator(xs) != 0.0 {
      ResidualSums(xs, ys, f.slope, f.intercept);
      Quotient(Times(n, Dot(xs, ys)) - Times(Total(xs), Total(ys)), Denominator(xs));
      Quotient(Total(ys) - Times(f.slope, Total(xs)), n);
      Cramer(n, Total(xs), Total(ys), Dot(xs, xs), Dot(xs, ys), f.slope, f.intercept);
    } else {
      DenominatorSign(xs);
      FlatIsNormal(xs, ys);
    }
  }

  lemma {:induction false} DotWithEqual(xs: Vector, e: Vector, c: real)
    requires |xs| == |e| && forall k :: 0 <= k < |xs| ==> xs[k] == c
    ensures Dot(xs, e) == Times(c, Total(e))
  {
    if xs == [] {
      Zero(c);
    } else {
      var k := |xs| - 1;
      DotWithEqual(xs[..k], e[..k], c);
      assert Ones(k + 1)[..k] == Ones(k);
      One(e[k]);
      Distribute(c, Total(e[..k]), e[k]);
    }
  }

  lemma {:induction false} FlatIsNormal(xs: Vector, ys: Vector)
    requires |xs| == |ys| > 0 && AllEqual(xs)
    ensures Normal(xs, ys, 0.0, Mean(ys))
  {
    var m := Mean(ys);
    ResidualSums(xs, ys, 0.0, m);
    Quotient(Total(ys), |ys| as real);
    Zero(Total(xs));
    DotWithEqual(xs, Residuals(xs, ys, 0.0, m), xs[0]);
    Zero(xs[0]);
  }

  lemma {:induction false} ResidualMoves(x: real, y: real, a: real, b: real, u: real, v: real)
    ensures y - (Times(a + u, x) + (b + v)) == y - (Times(a, x) + b) - (Times(u, x) + v)
  {
    Commute(a + u, x);
    Distribute(x, a, u);
    Commute(a, x);
    Commute(u, x);
  }

  /** Pythagoras: a line's squared error is the normal line's squared error plus the squared distance
      between the two lines. */
  lemma {:induction false} Pythagoras(xs: Vector, ys: Vector, a: real, b: real, u: real, v: real)
    requires |xs| == |ys| && Normal(xs, ys, a, b)
    ensures SquaredError(xs, ys, a + u, b + v) == SquaredError(xs, ys, a, b) + Dot(Line(xs, u, v), Line(xs, u, v))
  {
    var e, w := Residuals(xs, ys, a, b), Line(xs, u, v);
    forall k | 0 <= k < |xs| ensures Residuals(xs, ys, a + u, b + v)[k] == Minus(e, w)[k] {
      ResidualMoves(xs[k], ys[k], a, b, u, v);
    }
    assert Residuals(xs, ys, a + u, b + v) == Minus(e, w);
    SquareOfMinus(e, w);
    DotLine(e, xs, u, v);
    DotSymmetric(e, xs);
    Zero(u);
    Zero(v);
  }

  /** The fitted line has the least sum of squared residuals of all lines, in both branches. */
  lemma {:induction false} FitIsLeast(xs: Vector, ys: Vector, a: real, b: real)
    requires |xs| == |ys| > 0
    ensures SquaredError(xs, ys, FitOf(xs, ys).slope, FitOf(xs, ys).intercept) <= SquaredError(xs, ys, a, b)
  {
    var f := FitOf(xs, ys);
    var u, v := a - f.slope, b - f.intercept;
    FitIsNormal(xs, ys);
    Pythagoras(xs, ys, f.slope, f.intercept, u, v);
    assert f.slope + u == a && f.intercept + v == b;
    DotSelf(Line(xs, u, v));
  }

  /** With two different xs it is the only such line. */
  lemma {:induction false} FitIsUnique(xs: Vector, ys: Vector, a: real, b: real)
    requires |xs| == |ys| > 0 && !AllEqual(xs)
    requires SquaredError(xs, ys, a, b) <= SquaredError(xs, ys, FitOf(xs, ys).slope, FitOf(xs, ys).intercept)
    ensures a == FitOf(xs, ys).slope && b == FitOf(xs, ys).intercept
  {
    var f := FitOf(xs, ys);
    var u, v := a - f.slope, b - f.intercept;
    FitIsNormal(xs, ys);
    Pythagoras(xs, ys, f.slope, f.intercept, u, v);
    assert f.slope + u == a && f.intercept + v == b;
    DotSelf(Line(xs, u, v));
    var i, j :| 0 <= i < |xs| && 0 <= j < |xs| && xs[i] != xs[j];
    assert Line(xs, u, v)[i] == 0.0 && Line(xs, u, v)[j] == 0.0;
    TwoRoots(u, v, xs[i], xs[j]);
  }

  lemma {:induction false} TwoRoots(u: real, v: real, p: real, q: real)
    requires Times(u, p) + v == 0.0 && Times(u, q) + v == 0.0 && p != q
    ensures u == 0.0 && v == 0.0
  {
    Distribute(u, p, q);
    ZeroProduct(u, p - q);
    Zero(p);
  }

  // ---------------------------------------------------------------- r squared

  /** r squared lies in [0, 1] before any clamping. */
  lemma {:induction false} R2InUnit(xs: Vector, ys: Vector)
    requires |xs| == |ys| > 0
    ensures 0.0 <= FitOf(xs, ys).r2 <= 1.0
  {
    var f := FitOf(xs, ys);
    FitIsLeast(xs, ys, 0.0, Mean(ys));
    DotSelf(Residuals(xs, ys, f.slope, f.intercept));
    DotSelf(Residuals(xs, ys, 0.0, Mean(ys)));
    if SquaredError(xs, ys, 0.0, Mean(ys)) != 0.0 {
      RatioInUnit(SquaredError(xs, ys, f.slope, f.intercept), SquaredError(xs, ys, 0.0, Mean(ys)));
    }
  }

  ghost predicate Collinear(xs: Vector, ys: Vector, a: real, b: real)
    requires |xs| == |ys|
  {
    ys == Line(xs, a, b)
  }

  lemma {:induction false} NoErrorIffCollinear(xs: Vector, ys: Vector, a: real, b: real)
    requires |xs| == |ys|
    ensures SquaredError(xs, ys, a, b) >= 0.0
    ensures SquaredError(xs, ys, a, b) == 0.0 <==> Collinear(xs, ys, a, b)
  {
    var e := Residuals(xs, ys, a, b);
    DotSelf(e);
    assert forall k :: 0 <= k < |xs| ==> e[k] == ys[k] - Line(xs, a, b)[k];
    if Dot(e, e) == 0.0 {
      assert forall k :: 0 <= k < |xs| ==> ys[k] == Line(xs, a, b)[k] by {
        assert forall k :: 0 <= k < |xs| ==> e[k] == 0.0;
      }
    }
  }

  lemma {:induction false} PerfectIffNoError(xs: Vector, ys: Vector)
    requires |xs| == |ys| > 0 && !AllEqual(xs)
    ensures FitOf(xs, ys).r2 == 1.0 <==> SquaredError(xs, ys, FitOf(xs, ys).slope, FitOf(xs, ys).intercept) == 0.0
  {
    var f := FitOf(xs, ys);
    DenominatorSign(xs);
    FitIsLeast(xs, ys, 0.0, Mean(ys));
    NoErrorIffCollinear(xs, ys, f.slope, f.intercept);
    NoErrorIffCollinear(xs, ys, 0.0, Mean(ys));
    if SquaredError(xs, ys, 0.0, Mean(ys)) != 0.0 {
      RatioInUnit(SquaredError(xs, ys, f.slope, f.intercept), SquaredError(xs, ys, 0.0, Mean(ys)));
    }
  }

  /** With two different xs, r squared is 1 exactly when the points lie on a line, and that line is found. */
  lemma {:induction false} CollinearIffPerfect(xs: Vector, ys: Vector)
    requires |xs| == |ys| > 0 && !AllEqual(xs)
    ensures FitOf(xs, ys).r2 == 1.0 <==> exists a: real, b: real :: Collinear(xs, ys, a, b)
    ensures forall a: real, b: real :: Collinear(xs, ys, a, b) ==> FitOf(xs, ys) == Fit(a, b, 1.0)
  {
    var f := FitOf(xs, ys);
    PerfectIffNoError(xs, ys);
    NoErrorIffCollinear(xs, ys, f.slope, f.intercept);
    forall a: real, b: real | Collinear(xs, ys, a, b)
      ensures f == Fit(a, b, 1.0)
    {
      NoErrorIffCollinear(xs, ys, a, b);
      FitIsUnique(xs, ys, a, b);
    }
  }

  /** With equal xs the fit is the mean of the ys, flat and with nothing explained. */
  lemma {:induction false} FitOfEqualXs(xs: Vector, ys: Vector)
    requires |xs| == |ys| > 0 && AllEqual(xs)
    ensures FitOf(xs, ys) == Fit(0.0, Mean(ys), 0.0)
  {
    DenominatorSign(xs);
  }

  // ---------------------------------------------------------------- r squared as a correlation

  /** n times the sum of products of the deviations from the means. */
  function Covariation(xs: Vector, ys: Vector): real
    requires |xs| == |ys|
  {
    Times(|xs| as real, Dot(xs, ys)) - Times(Total(xs), Total(ys))
  }

  lemma {:induction false} ErrorOfNormal(xs: Vector, ys: Vector, a: real, b: real)
    requires |xs| == |ys| && Normal(xs, ys, a, b)
    ensures SquaredError(xs, ys, a, b) == Dot(ys, ys) - (Times(a, Dot(xs, ys)) + Times(b, Total(ys)))
  {
    var e, line := Residuals(xs, ys, a, b), Line(xs, a, b);
    DotMinus(e, ys, line);
    DotLine(e, xs, a, b);
    DotSymmetric(e, xs);
    Zero(a);
    Zero(b);
    DotSymmetric(e, ys);
    DotMinus(ys, ys, line);
    DotLine(ys, xs, a, b);
    DotSymmetric(ys, xs);
  }

  lemma {:induction false} ErrorOfMean(xs: Vector, ys: Vector, m: real)
    requires |xs| == |ys| > 0 && Times(m, |ys| as real) == Total(ys)
    ensures SquaredError(xs, ys, 0.0, m) == Dot(ys, ys) - Times(m, Total(ys))
  {
    CentredSums(ys, |ys| as real, m);
    forall k | 0 <= k < |xs| ensures Residuals(xs, ys, 0.0, m)[k] == Line(ys, 1.0, -m)[k] {
      Zero(xs[k]);
      One(ys[k]);
    }
    assert Residuals(xs, ys, 0.0, m) == Line(ys, 1.0, -m);
  }

  /** What the line explains beyond the mean, n times over. */
  lemma {:induction false} Explained(n: real, sx: real, sy: real, sxy: real, a: real, b: real, m: real)
    requires Times(b, n) == sy - Times(a, sx) && Times(m, n) == sy
    ensures Times(n, Times(a, sxy) + Times(b, sy) - Times(m, sy)) == Times(a, Times(n, sxy) - Times(sx, sy))
  {
    Distribute(n, Times(a, sxy) + Times(b, sy), Times(m, sy));
    Distribute(n, Times(a, sxy), Times(b, sy));
    TimesTwice(n, a, sxy);
    Associate(n, b, sy);
    Commute(n, b);
    Associate(n, m, sy);
    Commute(n, m);
    Commute(sy - Times(a, sx), sy);
    Distribute(sy, sy, Times(a, sx));
    Commute(sy, Times(a, sx));
    Associate(a, sx, sy);
    Distribute(a, Times(n, sxy), Times(sx, sy));
  }

  lemma {:induction false} R2Share(part: real, total: real)
    requires total == 0.0 ==> part == 0.0
    ensures Times(R2(part, total), total) == total - part
  {
    if total != 0.0 {
      Quotient(part, total);
      Commute(1.0 - part / total, total);
      Distribute(total, 1.0, part / total);
      Commute(total, part / total);
      One(total);
    } else {
      Zero(R2(part, total));
    }
  }

  /** r squared is the square of the covariation over the product of the two variations: Pearson's correlation,
      squared. */
  lemma {:induction false} R2IsCorrelation(xs: Vector, ys: Vector)
    requires |xs| == |ys| > 0 && !AllEqual(xs)
    ensures Times(FitOf(xs, ys).r2, Times(Denominator(xs), Denominator(ys)))
         == Times(Covariation(xs, ys), Covariation(xs, ys))
  {
    var f, n, m := FitOf(xs, ys), |xs| as real, Mean(ys);
    var a, b, r2, c := f.slope, f.intercept, f.r2, Covariation(xs, ys);
    var x, y := Denominator(xs), Denominator(ys);
    var total, part := SquaredError(xs, ys, 0.0, m), SquaredError(xs, ys, a, b);
    DenominatorSign(xs);
    Quotient(c, x);
    Quotient(Total(ys) - Times(a, Total(xs)), n);
    Quotient(Total(ys), n);
    FitIsNormal(xs, ys);
    ErrorOfNormal(xs, ys, a, b);
    ErrorOfMean(xs, ys, m);
    Explained(n, Total(xs), Total(ys), Dot(xs, ys), a, b, m);
    assert Times(n, total - part) == Times(a, c);
    SpreadTimesCount(n, m, Total(ys), Dot(ys, ys));
    assert Times(n, total) == y;
    FitIsLeast(xs, ys, 0.0, m);
    DotSelf(Residuals(xs, ys, a, b));
    R2Share(part, total);
    Correlate(r2, x, y, a, c, n, total, part);
  }

  lemma {:induction false} Correlate(
      r2: real, x: real, y: real, a: real, c: real, n: real, total: real, part: real)
    requires Times(r2, total) == total - part && Times(n, total - part) == Times(a, c)
    requires Times(n, total) == y && Times(a, x) == c
    ensures Times(r2, Times(x, y)) == Times(c, c)
  {
    TimesTwice(n, r2, total);
    assert Times(r2, y) == Times(a, c);
    TimesTwice(x, r2, y);
    TimesTwice(x, a, c);
    Commute(x, y);
    TimesTwice(r2, x, y);
    Associate(a, x, c);
    Associate(x, a, c);
    Commute(x, a);
  }

  // ---------------------------------------------------------------- the origin of the x axis

  function Shifted(xs: Vector, c: real): (s: Vector)
    ensures |s| == |xs|
  {
    seq(|xs|, i requires 0 <= i < |xs| => xs[i] - c)
  }

  lemma {:induction false} ShiftedPoint(x: real, c: real, a: real, b: real)
    ensures Times(a, x - c) + (b + Times(a, c)) == Times(a, x) + b
  {
    Distribute(a, x, c);
  }

  /** Moving the origin by c and the intercept by ac leaves the line where it was. */
  lemma {:induction false} ShiftedError(xs: Vector, ys: Vector, c: real, a: real, b: real)
    requires |xs| == |ys|
    ensures SquaredError(Shifted(xs, c), ys, a, b + Times(a, c)) == SquaredError(xs, ys, a, b)
  {
    forall k | 0 <= k < |xs| ensures Line(Shifted(xs, c), a, b + Times(a, c))[k] == Line(xs, a, b)[k] {
      ShiftedPoint(xs[k], c, a, b);
    }
    assert Line(Shifted(xs, c), a, b + Times(a, c)) == Line(xs, a, b);
  }

  lemma {:induction false} ShiftedEqual(xs: Vector, c: real)
    ensures AllEqual(Shifted(xs, c)) <==> AllEqual(xs)
  {
    var us := Shifted(xs, c);
    if AllEqual(us) {
      forall i, j | 0 <= i < |xs| && 0 <= j < |xs| ensures xs[i] == xs[j] {
        assert us[i] == us[j];
      }
    }
  }

  lemma {:induction false} ShiftedUnique(xs: Vector, ys: Vector, c: real)
    requires |xs| == |ys| > 0 && !AllEqual(xs)
    ensures var f, g := FitOf(xs, ys), FitOf(Shifted(xs, c), ys);
            g.slope == f.slope && g.intercept == f.intercept + Times(f.slope, c)
  {
    var us := Shifted(xs, c);
    var f, g := FitOf(xs, ys), FitOf(us, ys);
    var back := g.intercept - Times(g.slope, c);
    ShiftedEqual(xs, c);
    ShiftedError(xs, ys, c, f.slope, f.intercept);
    ShiftedError(xs, ys, c, g.slope, back);
    assert back + Times(g.slope, c) == g.intercept;
    FitIsLeast(xs, ys, g.slope, back);
    FitIsUnique(us, ys, f.slope, f.intercept + Times(f.slope, c));
  }

  /** Slope and r squared do not depend on where the x axis starts, and the line is the same line. */
  lemma {:induction false} ShiftInvariant(xs: Vector, ys: Vector, c: real)
    requires |xs| == |ys| > 0
    ensures var f, g := FitOf(xs, ys), FitOf(Shifted(xs, c), ys);
            g.slope == f.slope && g.r2 == f.r2 && g.intercept == f.intercept + Times(f.slope, c)
  {
    var us := Shifted(xs, c);
    var f := FitOf(xs, ys);
    DenominatorSign(xs);
    DenominatorSign(us);
    ShiftedEqual(xs, c);
    Zero(c);
    if !AllEqual(xs) {
      ShiftedUnique(xs, ys, c);
      ShiftedError(xs, ys, c, f.slope, f.intercept);
      ShiftedError(xs, ys, c, 0.0, Mean(ys));
    }
  }

  // ---------------------------------------------------------------- the loops

  /** One more point in every sum. */
  lemma {:induction false} DotGrows(p: Vector, q: Vector, i: nat)
    requires |p| == |q| && i < |p|
    ensures Dot(p[..i + 1], q[..i + 1]) == Dot(p[..i], q[..i]) + Times(p[i], q[i])
    ensures Total(p[..i + 1]) == Total(p[..i]) + p[i]
  {
    assert p[..i + 1][..i] == p[..i] && q[..i + 1][..i] == q[..i];
    assert Ones(i + 1)[..i] == Ones(i);
    One(p[i]);
  }

  lemma {:induction false} ErrorGrows(xs: Vector, ys: Vector, a: real, b: real, i: nat)
    requires |xs| == |ys| && i < |xs|
    ensures SquaredError(xs[..i + 1], ys[..i + 1], a, b)
         == SquaredError(xs[..i], ys[..i], a, b) + Times(ys[i] - (Times(a, xs[i]) + b), ys[i] - (Times(a, xs[i]) + b))
  {
    var e := Residuals(xs[..i + 1], ys[..i + 1], a, b);
    assert e[..i] == Residuals(xs[..i], ys[..i], a, b);
    assert e[i] == ys[i] - (Times(a, xs[i]) + b);
  }

  function Max(x: real, y: real): real {
    if x > y then x else y
  }

  /** The first pass: the sums the formulas need. */
  method Sums(xs: Vector, ys: Vector) returns (sumX: real, sumY: real, sumXY: real, sumX2: real)
    requires |xs| == |ys|
    ensures sumX == Total(xs) && sumY == Total(ys) && sumXY == Dot(xs, ys) && sumX2 == Dot(xs, xs)
  {
    sumX, sumY, sumXY, sumX2 := 0.0, 0.0, 0.0, 0.0;
    for i := 0 to |xs|
      invariant sumX == Total(xs[..i]) && sumY == Total(ys[..i])
      invariant sumXY == Dot(xs[..i], ys[..i]) && sumX2 == Dot(xs[..i], xs[..i])
    {
      DotGrows(xs, ys, i);
      DotGrows(xs, xs, i);
      DotGrows(ys, ys, i);
      sumX := sumX + xs[i];
      sumY := sumY + ys[i];
      sumXY := sumXY + Times(xs[i], ys[i]);
      sumX2 := sumX2 + Times(xs[i], xs[i]);
    }
    assert xs[..|xs|] == xs && ys[..|ys|] == ys;
  }

  /** The second pass: the squared errors of the line and of the mean. */
  method Errors(xs: Vector, ys: Vector, slope: real, intercept: real, meanY: real) returns (ssTot: real, ssRes: real)
    requires |xs| == |ys|
    ensures ssRes == SquaredError(xs, ys, slope, intercept) && ssTot == SquaredError(xs, ys, 0.0, meanY)
  {
    ssTot, ssRes := 0.0, 0.0;
    for i := 0 to |xs|
      invariant ssRes == SquaredError(xs[..i], ys[..i], slope, intercept)
      invariant ssTot == SquaredError(xs[..i], ys[..i], 0.0, meanY)
    {
      ErrorGrows(xs, ys, slope, intercept, i);
      ErrorGrows(xs, ys, 0.0, meanY, i);
      Zero(xs[i]);
      var predicted := Times(slope, xs[i]) + intercept;
      ssRes := ssRes + Times(ys[i] - predicted, ys[i] - predicted);
      ssTot := ssTot + Times(ys[i] - meanY, ys[i] - meanY);
    }
    assert xs[..|xs|] == xs && ys[..|ys|] == ys;
  }

  /** A quotient of floats whose divisor may be zero; the dividend is then zero too. */
  datatype Number = Value(v: real) | NotANumber

  function Over(p: real, n: real): Number {
    if n == 0.0 then NotANumber else Value(p / n)
  }

  /** Two passes over the points compute the fit, and the clamp of r squared at zero never acts. Without points the
      intercept is not a number. */
  method LinearRegression(xs: Vector, ys: Vector) returns (slope: real, intercept: Number, r2: real)
    requires |xs| == |ys|
    ensures |xs| == 0 ==> slope == 0.0 && intercept == NotANumber && r2 == 0.0
    ensures |xs| > 0 ==> intercept.Value? && Fit(slope, intercept.v, r2) == FitOf(xs, ys)
  {
    var n := |xs| as real;
    var sumX, sumY, sumXY, sumX2 := Sums(xs, ys);
    var denom := Times(n, sumX2) - Times(sumX, sumX);
    if denom == 0.0 {
      return 0.0, Over(sumY, n), 0.0;
    }
    slope := (Times(n, sumXY) - Times(sumX, sumY)) / denom;
    intercept := Over(sumY - Times(slope, sumX), n);
    var ssTot, ssRes := Errors(xs, ys, slope, intercept.v, sumY / n);
    R2InUnit(xs, ys);
    if ssTot == 0.0 {
      r2 := 1.0;
    } else {
      r2 := Max(0.0, 1.0 - ssRes / ssTot);
    }
  }
}
