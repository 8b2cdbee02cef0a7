/** `heapSlopeBytesPerSample` of `memory.ts`: the least-squares slope of a series sampled at 0, 1, 2, … */
module Slope {
  import opened Series
  import opened Quotients

  /** The products of two series, term by term. */
  function Times(a: seq<real>, b: seq<real>): (r: seq<real>)
    requires |a| == |b|
    ensures |r| == |a| && forall i :: 0 <= i < |a| ==> r[i] == a[i] * b[i]
  {
    seq(|a|, i requires 0 <= i < |a| => a[i] * b[i])
  }

  function Dot(a: seq<real>, b: seq<real>): real
    requires |a| == |b|
  {
    Sum(Times(a, b))
  }

  function MeanX(n: nat): real {
    (n as real - 1.0) / 2.0
  }

  function Mean(s: seq<real>): real
    requires s != []
  {
    Sum(s) / |s| as real
  }

  /** Each index's distance from the mean index, and each sample's from the mean sample. */
  function Dx(n: nat): (r: seq<real>)
    ensures |r| == n && forall i :: 0 <= i < n ==> r[i] == i as real - MeanX(n)
  {
    seq(n, i requires 0 <= i < n => i as real - MeanX(n))
  }

  function Dy(s: seq<real>): (r: seq<real>)
    requires s != []
    ensures |r| == |s| && forall i :: 0 <= i < |s| ==> r[i] == s[i] - Mean(s)
  {
    seq(|s|, i requires 0 <= i < |s| => s[i] - Mean(s))
  }

  function Sxy(s: seq<real>): real
    requires s != []
  {
    Dot(Dx(|s|), Dy(s))
  }

  function Sxx(n: nat): real {
    Dot(Dx(n), Dx(n))
  }

  function Slope(s: seq<real>): real
    requires |s| >= 2
  {
    SxxPositive(|s|);
    Sxy(s) / Sxx(|s|)
  }

  /** The fitted line passes through the point of means. */
  function Intercept(s: seq<real>): real
    requires |s| >= 2
  {
    Mean(s) - Slope(s) * MeanX(|s|)
  }

  lemma SumNext(s: seq<real>, i: nat)
    requires i < |s|
    ensures Sum(s[..i + 1]) == Sum(s[..i]) + s[i]
  {
    assert s[..i + 1][..i] == s[..i];
  }

  // ---------- Squares ----------

  lemma Product(x: real, y: real) returns (p: real)
    requires x > 0.0 && y > 0.0
    ensures p == x * y && p > 0.0
  {
    p := x * y;
  }

  lemma Square(x: real) returns (p: real)
    ensures p == x * x && p >= 0.0 && (p == 0.0 ==> x == 0.0)
  {
    p := 0.0;
    if x > 0.0 {
      p := Product(x, x);
    } else if x < 0.0 {
      p := Product(-x, -x);
    }
  }

  lemma SquareTerm(s: seq<real>, i: nat)
    requires i < |s|
    ensures Times(s, s)[i] >= 0.0 && (Times(s, s)[i] == 0.0 ==> s[i] == 0.0)
  {
    var p := Square(s[i]);
  }

  /** A sum of terms none of which is negative is not negative, and zero only if they all are. */
  lemma {:induction false} SumNotNegative(t: seq<real>)
    requires forall i :: 0 <= i < |t| ==> t[i] >= 0.0
    ensures Sum(t) >= 0.0
    ensures Sum(t) == 0.0 ==> forall i :: 0 <= i < |t| ==> t[i] == 0.0
  {
    if t != [] {
      SumNotNegative(t[..|t| - 1]);
    }
  }

  lemma DotSelf(s: seq<real>)
    ensures Dot(s, s) >= 0.0
    ensures Dot(s, s) == 0.0 ==> forall i :: 0 <= i < |s| ==> s[i] == 0.0
  {
    forall i | 0 <= i < |s| ensures Times(s, s)[i] >= 0.0 && (Times(s, s)[i] == 0.0 ==> s[i] == 0.0) {
      SquareTerm(s, i);
    }
    SumNotNegative(Times(s, s));
  }

  /** With two samples or more the denominator is positive, so the guard against zero never fires. */
  lemma SxxPositive(n: nat)
    requires n >= 2
    ensures Sxx(n) > 0.0
  {
    DotSelf(Dx(n));
    assert Dx(n)[0] < 0.0;
  }

  // ---------- The computation ----------

  method SampleMean(samples: seq<real>) returns (mean: real)
    requires samples != []
    ensures mean == Mean(samples)
  {
    var total := 0.0;
    for i := 0 to |samples|
      invariant total == Sum(samples[..i])
    {
      SumNext(samples, i);
      total := total + samples[i];
    }
    assert samples[..|samples|] == samples;
    mean := total / |samples| as real;
  }

  /** What one sample adds to the numerator and to the denominator. */
  method Terms(samples: seq<real>, i: nat, meanX: real, meanY: real) returns (num: real, den: real)
    requires i < |samples| && meanX == MeanX(|samples|) && meanY == Mean(samples)
    ensures num == Times(Dx(|samples|), Dy(samples))[i] && den == Times(Dx(|samples|), Dx(|samples|))[i]
  {
    var dx := i as real - meanX;
    num := dx * (samples[i] - meanY);
    den := dx * dx;
  }

  method Accumulate(samples: seq<real>, meanX: real, meanY: real) returns (num: real, den: real)
    requires samples != [] && meanX == MeanX(|samples|) && meanY == Mean(samples)
    ensures num == Sxy(samples) && den == Sxx(|samples|)
  {
    num, den := 0.0, 0.0;
    ghost var xy, xx := Times(Dx(|samples|), Dy(samples)), Times(Dx(|samples|), Dx(|samples|));
    for i := 0 to |samples|
      invariant num == Sum(xy[..i]) && den == Sum(xx[..i])
    {
      SumNext(xy, i);
      SumNext(xx, i);
      var a, b := Terms(samples, i, meanX, meanY);
      num, den := num + a, den + b;
    }
    assert xy[..|samples|] == xy && xx[..|samples|] == xx;
  }

  method HeapSlopeBytesPerSample(samples: seq<real>) returns (slope: real)
    ensures slope == if |samples| < 2 then 0.0 else Slope(samples)
  {
    if |samples| < 2 {
      return 0.0;
    }
    var meanY := SampleMean(samples);
    var num, den := Accumulate(samples, MeanX(|samples|), meanY);
    SxxPositive(|samples|);
    slope := if den == 0.0 then 0.0 else num / den;
  }

  // ---------- Sums are linear ----------

  lemma Distribute(a: real, x: real, y: real)
    ensures a * (x + y) == a * x + a * y && a * (x - y) == a * x - a * y
  {
  }

  lemma {:induction false} SumScaled(r: seq<real>, q: seq<real>, b: real)
    requires |r| == |q| && forall i :: 0 <= i < |r| ==> r[i] == b * q[i]
    ensures Sum(r) == b * Sum(q)
  {
    if r != [] {
      var n := |r| - 1;
      SumScaled(r[..n], q[..n], b);
      Distribute(b, Sum(q[..n]), q[n]);
    }
  }

  lemma {:induction false} SumOfSums(r: seq<real>, p: seq<real>, q: seq<real>)
    requires |r| == |p| == |q| && forall i :: 0 <= i < |r| ==> r[i] == p[i] + q[i]
    ensures Sum(r) == Sum(p) + Sum(q)
  {
    if r != [] {
      var n := |r| - 1;
      SumOfSums(r[..n], p[..n], q[..n]);
    }
  }

  function Scale(b: real, s: seq<real>): (r: seq<real>)
    ensures |r| == |s| && forall i :: 0 <= i < |s| ==> r[i] == b * s[i]
  {
    seq(|s|, i requires 0 <= i < |s| => b * s[i])
  }

  /** Adding a multiple of one series to another, and what that does to the sum. */
  lemma SumCombined(r: seq<real>, p: seq<real>, q: seq<real>, b: real, total: real)
    requires |r| == |p| == |q| && total == Sum(q)
    requires forall i :: 0 <= i < |r| ==> r[i] == p[i] + Scale(b, q)[i]
    ensures Sum(r) == Sum(p) + b * total
  {
    ScaledSum(q, b, total);
    SumOfSums(r, p, Scale(b, q));
  }

  lemma ScaledSum(q: seq<real>, b: real, total: real)
    requires total == Sum(q)
    ensures Sum(Scale(b, q)) == b * total
  {
    SumScaled(Scale(b, q), q, b);
  }

  function Plus(a: seq<real>, b: seq<real>): (r: seq<real>)
    requires |a| == |b|
    ensures |r| == |a| && forall i :: 0 <= i < |a| ==> r[i] == a[i] + b[i]
  {
    seq(|a|, i requires 0 <= i < |a| => a[i] + b[i])
  }

  lemma {:induction false} SumBinomial(r: seq<real>, p: seq<real>, q: seq<real>, t: seq<real>)
    requires |r| == |p| == |q| == |t| && forall i :: 0 <= i < |r| ==> r[i] == p[i] + 2.0 * q[i] + t[i]
    ensures Sum(r) == Sum(p) + 2.0 * Sum(q) + Sum(t)
  {
    if r != [] {
      var n := |r| - 1;
      SumBinomial(r[..n], p[..n], q[..n], t[..n]);
    }
  }

  lemma Binomial(x: real, y: real)
    ensures (x + y) * (x + y) == x * x + 2.0 * (x * y) + y * y
  {
  }

  lemma DotPlus(a: seq<real>, b: seq<real>)
    requires |a| == |b|
    ensures Dot(Plus(a, b), Plus(a, b)) == Dot(a, a) + 2.0 * Dot(a, b) + Dot(b, b)
  {
    var r := Times(Plus(a, b), Plus(a, b));
    forall i | 0 <= i < |a| ensures r[i] == Times(a, a)[i] + 2.0 * Times(a, b)[i] + Times(b, b)[i] {
      Binomial(a[i], b[i]);
    }
    SumBinomial(r, Times(a, a), Times(a, b), Times(b, b));
  }

  lemma {:induction false} SumDx(n: nat, k: nat)
    requires k <= n
    ensures Sum(Dx(n)[..k]) == k as real * (k as real - 1.0) / 2.0 - k as real * MeanX(n)
  {
    if k > 0 {
      SumDx(n, k - 1);
      SumNext(Dx(n), k - 1);
      var j, m := (k - 1) as real, MeanX(n);
      assert k as real == j + 1.0;
      assert (j + 1.0) * m == j * m + m;
      assert (j + 1.0) * j / 2.0 == j * (j - 1.0) / 2.0 + j;
    }
  }

  lemma {:induction false} SumDy(s: seq<real>, k: nat)
    requires s != [] && k <= |s|
    ensures Sum(Dy(s)[..k]) == Sum(s[..k]) - k as real * Mean(s)
  {
    if k > 0 {
      SumDy(s, k - 1);
      SumNext(Dy(s), k - 1);
      SumNext(s, k - 1);
      assert k as real * Mean(s) == (k - 1) as real * Mean(s) + Mean(s);
    }
  }

  /** Deviations from a mean add up to nothing. */
  lemma DeviationsCancel(s: seq<real>)
    requires s != []
    ensures Sum(Dx(|s|)) == 0.0 && Sum(Dy(s)) == 0.0
  {
    var n := |s|;
    SumDx(n, n);
    SumDy(s, n);
    assert Dx(n)[..n] == Dx(n) && Dy(s)[..n] == Dy(s) && s[..n] == s;
    assert n as real * MeanX(n) == n as real * (n as real - 1.0) / 2.0;
    var mean := Quotient(Sum(s), n as real);
  }

  // ---------- Least squares ----------

  /** How far each sample lies above the line `intercept + slope * i`. */
  function Residuals(s: seq<real>, intercept: real, slope: real): (r: seq<real>)
    ensures |r| == |s| && forall i :: 0 <= i < |s| ==> r[i] == s[i] - (intercept + slope * i as real)
  {
    seq(|s|, i requires 0 <= i < |s| => s[i] - (intercept + slope * i as real))
  }

  /** The sum of squared residuals. */
  function Error(s: seq<real>, intercept: real, slope: real): real {
    Dot(Residuals(s, intercept, slope), Residuals(s, intercept, slope))
  }

  /** The fit's residuals. */
  function Left(s: seq<real>): (r: seq<real>)
    requires |s| >= 2
    ensures |r| == |s|
  {
    Residuals(s, Intercept(s), Slope(s))
  }

  lemma LeftTerm(s: seq<real>, i: nat)
    requires |s| >= 2 && i < |s|
    ensures Left(s)[i] == Dy(s)[i] - Slope(s) * Dx(|s|)[i]
  {
    Distribute(Slope(s), i as real, MeanX(|s|));
  }

  lemma LeftSum(s: seq<real>)
    requires |s| >= 2
    ensures Sum(Left(s)) == 0.0
  {
    forall i | 0 <= i < |s| ensures Left(s)[i] == Dy(s)[i] + Scale(-Slope(s), Dx(|s|))[i] {
      LeftTerm(s, i);
    }
    DeviationsCancel(s);
    SumCombined(Left(s), Dy(s), Dx(|s|), -Slope(s), 0.0);
  }

  lemma TiltedTimes(e: seq<real>, x: seq<real>, y: seq<real>, b: real, i: nat)
    requires |e| == |x| == |y| && i < |e| && e[i] == y[i] - b * x[i]
    ensures Times(e, x)[i] == Times(x, y)[i] + Scale(-b, Times(x, x))[i]
  {
    LeftTimes(e[i], y[i], b, x[i]);
  }

  lemma LeftTimesTerm(s: seq<real>, i: nat)
    requires |s| >= 2 && i < |s|
    ensures Times(Left(s), Dx(|s|))[i] == Times(Dx(|s|), Dy(s))[i] + Scale(-Slope(s), Times(Dx(|s|), Dx(|s|)))[i]
  {
    LeftTerm(s, i);
    TiltedTimes(Left(s), Dx(|s|), Dy(s), Slope(s), i);
  }

  lemma LeftDotExpanded(s: seq<real>)
    requires |s| >= 2
    ensures Dot(Left(s), Dx(|s|)) == Sxy(s) + (-Slope(s)) * Sxx(|s|)
  {
    var ex, xy, xx, b := Times(Left(s), Dx(|s|)), Times(Dx(|s|), Dy(s)), Times(Dx(|s|), Dx(|s|)), -Slope(s);
    forall i | 0 <= i < |s| ensures ex[i] == xy[i] + Scale(b, xx)[i] {
      LeftTimesTerm(s, i);
    }
    SumCombined(ex, xy, xx, b, Sxx(|s|));
  }

  lemma LeftDot(s: seq<real>)
    requires |s| >= 2
    ensures Dot(Left(s), Dx(|s|)) == 0.0
  {
    LeftDotExpanded(s);
    SxxPositive(|s|);
    QuotientCancels(Sxy(s), Sxx(|s|), Slope(s));
  }

  /** The fit's residuals balance out: their sum is zero, and so is their sum weighted by index. */
  lemma NormalEquations(s: seq<real>)
    requires |s| >= 2
    ensures Sum(Left(s)) == 0.0 && Dot(Left(s), Dx(|s|)) == 0.0
  {
    LeftSum(s);
    LeftDot(s);
  }

  lemma LeftTimes(e: real, y: real, b: real, x: real)
    requires e == y - b * x
    ensures e * x == x * y + (-b) * (x * x)
  {
  }

  lemma QuotientCancels(a: real, b: real, q: real)
    requires b > 0.0 && q == a / b
    ensures a + (-q) * b == 0.0
  {
  }

  /** The fit minus another line, at each index: `gap + tilt * dx`. */
  function Between(s: seq<real>, gap: real, tilt: real): (r: seq<real>)
    ensures |r| == |s| && forall i :: 0 <= i < |s| ==> r[i] == gap + tilt * Dx(|s|)[i]
  {
    seq(|s|, i requires 0 <= i < |s| => gap + tilt * Dx(|s|)[i])
  }

  /** The residuals of any line are the fit's, plus what lies between the two lines. */
  lemma ResidualsSplit(s: seq<real>, intercept: real, slope: real) returns (gap: real, tilt: real)
    requires |s| >= 2
    ensures Residuals(s, intercept, slope) == Plus(Left(s), Between(s, gap, tilt))
    ensures gap == 0.0 && tilt == 0.0 ==> slope == Slope(s) && intercept == Intercept(s)
  {
    var mx, b := MeanX(|s|), Slope(s);
    tilt := b - slope;
    gap := Intercept(s) - intercept + tilt * mx;
    forall i | 0 <= i < |s|
      ensures Residuals(s, intercept, slope)[i] == Left(s)[i] + (gap + tilt * Dx(|s|)[i])
    {
      Distribute(tilt, i as real, mx);
      Distribute(i as real, b, slope);
    }
  }

  lemma BetweenTerm(e: real, gap: real, tilt: real, x: real)
    ensures e * (gap + tilt * x) == gap * e + tilt * (e * x)
  {
  }

  /** What lies between the fit and another line is orthogonal to what the fit leaves. */
  lemma Orthogonal(s: seq<real>, gap: real, tilt: real)
    requires |s| >= 2
    ensures Dot(Left(s), Between(s, gap, tilt)) == 0.0
  {
    NormalEquations(s);
    OrthogonalTo(Left(s), Dx(|s|), Between(s, gap, tilt), gap, tilt);
  }

  lemma OrthogonalTerm(e: seq<real>, x: seq<real>, d: seq<real>, gap: real, tilt: real, i: nat)
    requires |e| == |x| == |d| && i < |e| && d[i] == gap + tilt * x[i]
    ensures Times(e, d)[i] == Scale(gap, e)[i] + Scale(tilt, Times(e, x))[i]
  {
    BetweenTerm(e[i], gap, tilt, x[i]);
  }

  lemma OrthogonalTo(e: seq<real>, x: seq<real>, d: seq<real>, gap: real, tilt: real)
    requires |e| == |x| == |d| && forall i :: 0 <= i < |e| ==> d[i] == gap + tilt * x[i]
    requires Sum(e) == 0.0 && Dot(e, x) == 0.0
    ensures Dot(e, d) == 0.0
  {
    forall i | 0 <= i < |e| ensures Times(e, d)[i] == Scale(gap, e)[i] + Scale(tilt, Times(e, x))[i] {
      OrthogonalTerm(e, x, d, gap, tilt, i);
    }
    SumCombined(Times(e, d), Scale(gap, e), Times(e, x), tilt, 0.0);
    SumScaled(Scale(gap, e), e, gap);
  }

  lemma NothingBetween(s: seq<real>, gap: real, tilt: real)
    requires |s| >= 2 && forall i :: 0 <= i < |s| ==> Between(s, gap, tilt)[i] == 0.0
    ensures gap == 0.0 && tilt == 0.0
  {
    var d, x := Between(s, gap, tilt), Dx(|s|);
    assert d[0] == 0.0 && d[1] == 0.0;
    assert x[1] == x[0] + 1.0;
    Distribute(tilt, x[0], 1.0);
  }

  /** No line is closer to the samples than the fitted one, and none other is as close. */
  lemma LeastSquares(s: seq<real>, intercept: real, slope: real)
    requires |s| >= 2
    ensures Error(s, intercept, slope) >= Error(s, Intercept(s), Slope(s))
    ensures Error(s, intercept, slope) == Error(s, Intercept(s), Slope(s)) ==> slope == Slope(s) && intercept == Intercept(s)
  {
    var gap, tilt := ResidualsSplit(s, intercept, slope);
    var d := Between(s, gap, tilt);
    DotPlus(Left(s), d);
    Orthogonal(s, gap, tilt);
    DotSelf(d);
    if Dot(d, d) == 0.0 {
      NothingBetween(s, gap, tilt);
    }
  }

  // ---------- What the slope does with a changed series ----------

  /** No line has a smaller error. */
  ghost predicate Best(s: seq<real>, intercept: real, slope: real) {
    forall a, b :: Error(s, a, b) >= Error(s, intercept, slope)
  }

  /** The best line is the fitted one, and there is no other. */
  lemma FitIsBest(s: seq<real>) returns (intercept: real, slope: real)
    requires |s| >= 2
    ensures Best(s, intercept, slope) && intercept == Intercept(s) && slope == Slope(s)
  {
    intercept, slope := Intercept(s), Slope(s);
    forall a, b ensures Error(s, a, b) >= Error(s, intercept, slope) {
      LeastSquares(s, a, b);
    }
  }

  lemma BestIsFit(s: seq<real>, intercept: real, slope: real)
    requires |s| >= 2 && Best(s, intercept, slope)
    ensures intercept == Intercept(s) && slope == Slope(s)
  {
    var a, b := FitIsBest(s);
    LeastSquares(s, intercept, slope);
  }

  function Line(intercept: real, slope: real, n: nat): (s: seq<real>)
    ensures |s| == n && forall i :: 0 <= i < n ==> s[i] == intercept + slope * i as real
  {
    seq(n, i requires 0 <= i < n => intercept + slope * i as real)
  }

  lemma {:induction false} SumZero(t: seq<real>)
    requires forall i :: 0 <= i < |t| ==> t[i] == 0.0
    ensures Sum(t) == 0.0
  {
    if t != [] {
      SumZero(t[..|t| - 1]);
    }
  }

  /** Samples that lie on a line give back that line. */
  lemma RecoversEveryLine(intercept: real, slope: real, n: nat)
    requires n >= 2
    ensures Slope(Line(intercept, slope, n)) == slope && Intercept(Line(intercept, slope, n)) == intercept
  {
    var s := Line(intercept, slope, n);
    var z := Residuals(s, intercept, slope);
    SumZero(Times(z, z));
    DotSelf(Residuals(s, Intercept(s), Slope(s)));
    LeastSquares(s, intercept, slope);
  }

  function Shift(s: seq<real>, offset: real): (r: seq<real>)
    ensures |r| == |s| && forall i :: 0 <= i < |s| ==> r[i] == s[i] + offset
  {
    seq(|s|, i requires 0 <= i < |s| => s[i] + offset)
  }

  lemma ErrorShifted(s: seq<real>, offset: real, intercept: real, slope: real)
    ensures Error(Shift(s, offset), intercept + offset, slope) == Error(s, intercept, slope)
  {
    assert Residuals(Shift(s, offset), intercept + offset, slope) == Residuals(s, intercept, slope);
  }

  lemma BestShifted(s: seq<real>, offset: real, intercept: real, slope: real)
    requires Best(s, intercept, slope)
    ensures Best(Shift(s, offset), intercept + offset, slope)
  {
    ErrorShifted(s, offset, intercept, slope);
    forall c, d ensures Error(Shift(s, offset), c, d) >= Error(s, intercept, slope) {
      var a := c - offset;
      ErrorShifted(s, offset, a, d);
      assert a + offset == c;
    }
  }

  /** A constant offset moves the line, not its slope. */
  lemma OffsetIgnored(s: seq<real>, offset: real)
    requires |s| >= 2
    ensures Slope(Shift(s, offset)) == Slope(s) && Intercept(Shift(s, offset)) == Intercept(s) + offset
  {
    var a, b := FitIsBest(s);
    BestShifted(s, offset, a, b);
    BestIsFit(Shift(s, offset), a + offset, b);
  }

  lemma {:induction false} SumFromHead(s: seq<real>)
    requires s != []
    ensures Sum(s) == s[0] + Sum(s[1..])
  {
    if |s| > 1 {
      SumFromHead(s[..|s| - 1]);
      assert s[1..][..|s| - 2] == s[..|s| - 1][1..];
    }
  }

  lemma {:induction false} SumReversed(s: seq<real>)
    ensures Sum(Reverse(s)) == Sum(s)
  {
    if s != [] {
      SumReversed(s[1..]);
      SumFromHead(s);
      assert Reverse(s)[..|s| - 1] == Reverse(s[1..]);
    }
  }

  lemma DotReversed(s: seq<real>)
    ensures Dot(Reverse(s), Reverse(s)) == Dot(s, s)
  {
    var t := Times(s, s);
    SumReversed(t);
    forall i | 0 <= i < |s| ensures Times(Reverse(s), Reverse(s))[i] == Reverse(t)[i] {
      assert Reverse(s)[i] == s[|s| - 1 - i];
    }
    assert Times(Reverse(s), Reverse(s)) == Reverse(t);
  }

  /** Reading a line from the far end: the same residuals in the opposite order. */
  lemma ErrorReversed(s: seq<real>, intercept: real, slope: real) returns (far: real)
    requires s != []
    ensures far == intercept + slope * (|s| - 1) as real
    ensures Error(Reverse(s), far, -slope) == Error(s, intercept, slope)
  {
    var n := |s|;
    far := intercept + slope * (n - 1) as real;
    var e, f := Residuals(Reverse(s), far, -slope), Reverse(Residuals(s, intercept, slope));
    forall i | 0 <= i < n ensures e[i] == f[i] {
      Distribute(slope, (n - 1) as real, i as real);
      assert (n - 1 - i) as real == (n - 1) as real - i as real;
    }
    assert e == f;
    DotReversed(Residuals(s, intercept, slope));
  }

  /** No line is closer to the reversed series than the best line read from the far end. */
  lemma BestReversed(s: seq<real>, intercept: real, slope: real) returns (far: real)
    requires |s| >= 2 && Best(s, intercept, slope)
    ensures Best(Reverse(s), far, -slope)
  {
    far := ErrorReversed(s, intercept, slope);
    assert Reverse(Reverse(s)) == s;
    forall c, d ensures Error(Reverse(s), c, d) >= Error(Reverse(s), far, -slope) {
      var near := ErrorReversed(Reverse(s), c, d);
    }
  }

  /** Reversing the series negates the slope. */
  lemma ReversalNegates(s: seq<real>)
    requires |s| >= 2
    ensures Slope(Reverse(s)) == -Slope(s)
  {
    var a, b := FitIsBest(s);
    var far := BestReversed(s, a, b);
    BestIsFit(Reverse(s), far, -b);
  }
}
