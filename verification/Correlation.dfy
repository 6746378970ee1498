/** Pearson correlation of paired returns, and the evidence half of promotion to live capital. */
module Correlation {
  import opened Common

  // ---------------------------------------------------------------- definitions

  function Dot(u: seq<real>, v: seq<real>): real
    requires |u| == |v|
  {
    if u == [] then 0.0 else Dot(u[..|u| - 1], v[..|v| - 1]) + Times(u[|u| - 1], v[|v| - 1])
  }

  function MeanOf(s: seq<real>): real
    requires s != []
  {
    Mean(Sum(s), |s|)
  }

  function Deviations(s: seq<real>): (d: seq<real>)
    requires s != []
    ensures |d| == |s| && forall i :: 0 <= i < |s| ==> d[i] == s[i] - MeanOf(s)
  {
    seq(|s|, i requires 0 <= i < |s| => s[i] - MeanOf(s))
  }

  function Covariation(xs: seq<real>, ys: seq<real>): real
    requires |xs| == |ys| && xs != []
  {
    Dot(Deviations(xs), Deviations(ys))
  }

  /** A positive square root of every positive number. */
  ghost predicate SquareRoot(root: real -> real) {
    forall v: real :: v > 0.0 ==> root(v) > 0.0 && Times(root(v), root(v)) == v
  }

  function Shorter(a: seq<real>, b: seq<real>): nat {
    if |a| <= |b| then |a| else |b|
  }

  /** The normalised covariation of two series of equal length; zero when either is flat. */
  function Normalised(xs: seq<real>, ys: seq<real>, root: real -> real): real
    requires SquareRoot(root) && |xs| == |ys| && xs != []
  {
    var varX, varY := Covariation(xs, xs), Covariation(ys, ys);
    if varX <= 0.0 || varY <= 0.0 then 0.0
    else
      RootsMultiply(varX, varY, root);
      Covariation(xs, ys) / Times(root(varX), root(varY))
  }

  /** Correlation over the paired prefix; zero when there are not two pairs. */
  function Pearson(a: seq<real>, b: seq<real>, root: real -> real): real
    requires SquareRoot(root)
  {
    var n := Shorter(a, b);
    if n < 2 then 0.0 else Normalised(a[..n], b[..n], root)
  }

  lemma RootsMultiply(x: real, y: real, root: real -> real)
    requires SquareRoot(root) && x > 0.0 && y > 0.0
    ensures var d := Times(root(x), root(y)); d > 0.0 && Times(d, d) == Times(x, y)
  {
    TimesPositive(root(x), root(y));
    RegroupSquares(root(x), root(y));
  }

  lemma RegroupSquares(p: real, q: real)
    ensures Times(Times(p, q), Times(p, q)) == Times(Times(p, p), Times(q, q))
  {
    var r := p * q;
    calc {
      r * r;
      p * (q * r);
      p * (p * (q * q));
      (p * p) * (q * q);
    }
  }

  // ---------------------------------------------------------------- inner products

  lemma {:induction false} DotSymmetric(u: seq<real>, v: seq<real>)
    requires |u| == |v|
    ensures Dot(u, v) == Dot(v, u)
  {
    hide Times;
    if u != [] {
      DotSymmetric(u[..|u| - 1], v[..|v| - 1]);
      TimesCommutes(u[|u| - 1], v[|v| - 1]);
    }
  }

  predicate AllZero(u: seq<real>) {
    forall i :: 0 <= i < |u| ==> u[i] == 0.0
  }

  lemma SquareSign(x: real)
    ensures Times(x, x) >= 0.0 && (Times(x, x) == 0.0 <==> x == 0.0)
  {
    if x < 0.0 { TimesPositive(-x, -x); } else if x > 0.0 { TimesPositive(x, x); }
  }

  /** A series' inner product with itself is positive unless the series is zero throughout. */
  lemma {:induction false} DotDefinite(u: seq<real>)
    ensures Dot(u, u) >= 0.0 && (Dot(u, u) == 0.0 <==> AllZero(u))
  {
    hide Times;
    if u != [] {
      var rest, last := u[..|u| - 1], u[|u| - 1];
      DotDefinite(rest);
      SquareSign(last);
      if AllZero(rest) && last == 0.0 {
        assert forall i :: 0 <= i < |rest| ==> u[i] == rest[i];
      }
    }
  }

  lemma {:induction false} DotWithZero(u: seq<real>, v: seq<real>)
    requires |u| == |v| && AllZero(u)
    ensures Dot(u, v) == 0.0
  {
    if u != [] {
      DotWithZero(u[..|u| - 1], v[..|v| - 1]);
    }
  }

  /** The series s·v − t·u. */
  function Combine(s: real, v: seq<real>, t: real, u: seq<real>): (w: seq<real>)
    requires |u| == |v|
    ensures |w| == |v| && forall i :: 0 <= i < |w| ==> w[i] == Times(s, v[i]) - Times(t, u[i])
  {
    seq(|v|, i requires 0 <= i < |v| => Times(s, v[i]) - Times(t, u[i]))
  }

  /** The square of s·v − t·u in terms of x = u·u, y = v·v and z = u·v. */
  function Expanded(s: real, t: real, x: real, y: real, z: real): real {
    s * s * y - 2.0 * (s * t) * z + t * t * x
  }

  lemma SquareOfDifference(s: real, b: real, t: real, a: real)
    ensures var w := Times(s, b) - Times(t, a); Times(w, w) == Expanded(s, t, Times(a, a), Times(b, b), Times(a, b))
  {
    var p, q := s * b, t * a;
    assert (p - q) * (p - q) == p * p - 2.0 * (p * q) + q * q;
    Regroup(s, b, s, b);
    Regroup(s, b, t, a);
    Regroup(t, a, t, a);
    assert a * b == b * a;
    assert 2.0 * ((s * t) * (a * b)) == 2.0 * (s * t) * (a * b);
  }

  lemma Regroup(s: real, b: real, t: real, a: real)
    ensures (s * b) * (t * a) == (s * t) * (b * a)
  {
    var r := t * a;
    calc {
      (s * b) * r;
      s * (b * r);
      s * (t * (b * a));
      (s * t) * (b * a);
    }
  }

  lemma ExpandedAdds(s: real, t: real, x: real, y: real, z: real, x': real, y': real, z': real)
    ensures Expanded(s, t, x + x', y + y', z + z') == Expanded(s, t, x, y, z) + Expanded(s, t, x', y', z')
  {
    var p, q, r := s * s, 2.0 * (s * t), t * t;
    assert p * (y + y') == p * y + p * y';
    assert q * (z + z') == q * z + q * z';
    assert r * (x + x') == r * x + r * x';
  }

  lemma {:induction false} DotOfCombine(s: real, v: seq<real>, t: real, u: seq<real>)
    requires |u| == |v|
    ensures var w := Combine(s, v, t, u); Dot(w, w) == Expanded(s, t, Dot(u, u), Dot(v, v), Dot(u, v))
  {
    if u == [] {
      assert Expanded(s, t, 0.0, 0.0, 0.0) == 0.0;
    } else {
      hide Times, Expanded;
      var n := |u| - 1;
      DotOfCombine(s, v[..n], t, u[..n]);
      var w := Combine(s, v, t, u);
      assert w[..n] == Combine(s, v[..n], t, u[..n]);
      SquareOfDifference(s, v[n], t, u[n]);
      ExpandedAdds(s, t, Dot(u[..n], u[..n]), Dot(v[..n], v[..n]), Dot(u[..n], v[..n]),
                   Times(u[n], u[n]), Times(v[n], v[n]), Times(u[n], v[n]));
    }
  }

  lemma Residual(x: real, y: real, z: real)
    ensures Expanded(x, z, x, y, z) == Times(x, Times(x, y) - Times(z, z))
  {
    assert x * (x * y - z * z) == x * (x * y) - x * (z * z);
    assert x * x * y == x * (x * y);
    assert (x * z) * z == x * (z * z);
    assert z * z * x == x * (z * z);
  }

  lemma SignOfFactor(x: real, d: real)
    requires x > 0.0 && Times(x, d) >= 0.0
    ensures d >= 0.0 && (Times(x, d) == 0.0 <==> d == 0.0)
  {
    if d < 0.0 { TimesPositive(x, -d); } else if d > 0.0 { TimesPositive(x, d); }
  }

  /** Cauchy-Schwarz with its equality case, from the residual of projecting one series on the other. */
  lemma {:induction false} CauchySchwarz(u: seq<real>, v: seq<real>)
    requires |u| == |v|
    ensures Times(Dot(u, v), Dot(u, v)) <= Times(Dot(u, u), Dot(v, v))
    ensures Dot(u, u) > 0.0 ==>
              (Times(Dot(u, v), Dot(u, v)) == Times(Dot(u, u), Dot(v, v))
               <==> AllZero(Combine(Dot(u, u), v, Dot(u, v), u)))
  {
    var x, y, z := Dot(u, u), Dot(v, v), Dot(u, v);
    DotDefinite(u);
    if x == 0.0 {
      DotWithZero(u, v);
    } else {
      hide Times, Expanded, AllZero, Combine;
      var w := Combine(x, v, z, u);
      DotOfCombine(x, v, z, u);
      Residual(x, y, z);
      DotDefinite(w);
      SignOfFactor(x, Times(x, y) - Times(z, z));
    }
  }

  // ---------------------------------------------------------------- the correlation

  predicate Varies(s: seq<real>) {
    s != [] && Covariation(s, s) > 0.0
  }

  lemma QuotientSquare(z: real, d: real)
    requires d > 0.0
    ensures Times(z, z) <= Times(d, d) <==> -1.0 <= z / d <= 1.0
    ensures Times(z, z) == Times(d, d) <==> AbsOf(z / d) == 1.0
  {
    SquaresOrder(z, d);
    QuotientOrder(z, d);
  }

  lemma QuotientOrder(z: real, d: real)
    requires d > 0.0
    ensures -d <= z <= d <==> -1.0 <= z / d <= 1.0
    ensures z == d || z == -d <==> AbsOf(z / d) == 1.0
  {
    var q := z / d;
    assert q * d == z;
    if q > 1.0 { MulStrict(1.0, q, d); } else if q < 1.0 { MulStrict(q, 1.0, d); }
    if q > -1.0 { MulStrict(-1.0, q, d); } else if q < -1.0 { MulStrict(q, -1.0, d); }
  }

  lemma SquaresOrder(z: real, d: real)
    requires d > 0.0
    ensures Times(z, z) <= Times(d, d) <==> -d <= z <= d
    ensures Times(z, z) == Times(d, d) <==> z == d || z == -d
  {
    assert Times(d, d) - Times(z, z) == (d - z) * (d + z);
    if z > d {
      MulStrict(0.0, d + z, z - d);
    } else if z < -d {
      MulStrict(0.0, d - z, -(d + z));
    } else if -d < z < d {
      MulStrict(0.0, d + z, d - z);
    }
  }

  lemma CovariationFacts(xs: seq<real>, ys: seq<real>)
    requires |xs| == |ys| && xs != []
    ensures Covariation(xs, ys) == Covariation(ys, xs)
    ensures Times(Covariation(xs, ys), Covariation(xs, ys)) <= Times(Covariation(xs, xs), Covariation(ys, ys))
  {
    hide Times, AllZero, Combine;
    CauchySchwarz(Deviations(xs), Deviations(ys));
    DotSymmetric(Deviations(xs), Deviations(ys));
  }

  lemma NormalisedBounded(xs: seq<real>, ys: seq<real>, root: real -> real)
    requires SquareRoot(root) && |xs| == |ys| && xs != []
    ensures -1.0 <= Normalised(xs, ys, root) <= 1.0
    ensures Normalised(xs, ys, root) == Normalised(ys, xs, root)
  {
    hide Covariation, SquareRoot, Times;
    if Varies(xs) && Varies(ys) {
      CovariationFacts(xs, ys);
      RootsMultiply(Covariation(xs, xs), Covariation(ys, ys), root);
      QuotientSquare(Covariation(xs, ys), Times(root(Covariation(xs, xs)), root(Covariation(ys, ys))));
      TimesCommutes(root(Covariation(xs, xs)), root(Covariation(ys, ys)));
    }
  }

  /** A correlation lies between -1 and 1, and is the same both ways round. */
  lemma CorrelationBounded(a: seq<real>, b: seq<real>, root: real -> real)
    requires SquareRoot(root)
    ensures -1.0 <= Pearson(a, b, root) <= 1.0
    ensures Pearson(a, b, root) == Pearson(b, a, root)
  {
    hide Normalised, SquareRoot;
    var n := Shorter(a, b);
    if n >= 2 {
      NormalisedBounded(a[..n], b[..n], root);
    }
  }

  /** The second series' deviations are a fixed multiple of the first's. */
  predicate Sloped(xs: seq<real>, ys: seq<real>, slope: real)
    requires |xs| == |ys| && xs != []
  {
    forall i :: 0 <= i < |xs| ==> Deviations(ys)[i] == Times(slope, Deviations(xs)[i])
  }

  /** Every pair lies on one line. */
  ghost predicate OnALine(xs: seq<real>, ys: seq<real>)
    requires |xs| == |ys| && xs != []
  {
    exists slope: real :: Sloped(xs, ys, slope)
  }

  predicate Multiple(w: seq<real>, slope: real, u: seq<real>) {
    |w| == |u| && forall i :: 0 <= i < |u| ==> w[i] == Times(slope, u[i])
  }

  lemma TimesDistributes(a: real, b: real, c: real)
    ensures Times(a, b + c) == Times(a, b) + Times(a, c)
    ensures Times(a, b - c) == Times(a, b) - Times(a, c)
  {
  }

  lemma {:induction false} DotScaled(u: seq<real>, v: seq<real>, w: seq<real>, slope: real)
    requires |u| == |v| && Multiple(w, slope, u)
    ensures Dot(w, v) == Times(slope, Dot(u, v))
  {
    if u != [] {
      hide Times;
      var n := |u| - 1;
      DotScaled(u[..n], v[..n], w[..n], slope);
      TimesAssociates(slope, u[n], v[n]);
      TimesDistributes(slope, Dot(u[..n], v[..n]), Times(u[n], v[n]));
    }
  }

  lemma ResidualVanishes(u: seq<real>, v: seq<real>, slope: real)
    requires |u| == |v| && Multiple(v, slope, u)
    ensures AllZero(Combine(Dot(u, u), v, Dot(u, v), u))
  {
    hide Times;
    DotScaled(u, u, v, slope);
    DotSymmetric(u, v);
    var x := Dot(u, u);
    forall i | 0 <= i < |u|
      ensures Times(x, v[i]) == Times(Dot(u, v), u[i])
    {
      TimesCommutes(slope, x);
      TimesAssociates(x, slope, u[i]);
    }
  }

  lemma ResidualMeansMultiple(u: seq<real>, v: seq<real>) returns (slope: real)
    requires |u| == |v| && Dot(u, u) > 0.0 && AllZero(Combine(Dot(u, u), v, Dot(u, v), u))
    ensures Multiple(v, slope, u)
  {
    var x, z, w := Dot(u, u), Dot(u, v), Combine(Dot(u, u), v, Dot(u, v), u);
    slope := z / x;
    assert Times(x, slope) == z;
    hide Times;
    forall i | 0 <= i < |u|
      ensures v[i] == Times(slope, u[i])
    {
      assert w[i] == 0.0;
      TimesAssociates(x, slope, u[i]);
      TimesDistributes(x, v[i], Times(slope, u[i]));
      SignOfFactor(x, v[i] - Times(slope, u[i]));
    }
  }

  /** Two series that vary are perfectly correlated exactly when their pairs lie on one line. */
  lemma PerfectIffOnALine(xs: seq<real>, ys: seq<real>, root: real -> real)
    requires SquareRoot(root) && |xs| == |ys| >= 2 && Varies(xs) && Varies(ys)
    ensures AbsOf(Pearson(xs, ys, root)) == 1.0 <==> OnALine(xs, ys)
  {
    hide SquareRoot, AbsOf, AllZero, Combine, Times;
    var u, v := Deviations(xs), Deviations(ys);
    assert xs[..|xs|] == xs && ys[..|ys|] == ys;
    CauchySchwarz(u, v);
    RootsMultiply(Covariation(xs, xs), Covariation(ys, ys), root);
    QuotientSquare(Covariation(xs, ys), Times(root(Covariation(xs, xs)), root(Covariation(ys, ys))));
    if OnALine(xs, ys) {
      var slope :| Sloped(xs, ys, slope);
      ResidualVanishes(u, v, slope);
    }
    if AllZero(Combine(Dot(u, u), v, Dot(u, v), u)) {
      var slope := ResidualMeansMultiple(u, v);
      assert Sloped(xs, ys, slope);
    }
  }

  /** A series that varies correlates fully with itself, and a flat or short one not at all. */
  lemma SelfCorrelation(a: seq<real>, root: real -> real)
    requires SquareRoot(root)
    ensures Pearson(a, a, root) == if |a| >= 2 && Varies(a) then 1.0 else 0.0
  {
    hide Covariation, Times;
    assert a[..|a|] == a;
    if |a| >= 2 && Varies(a) {
      var v := Covariation(a, a);
      assert root(v) > 0.0 && Times(root(v), root(v)) == v;
      assert v / v == 1.0;
    }
  }

  // ---------------------------------------------------------------- rescaling a series

  function Rescaled(b: seq<real>, scale: real, shift: real): (r: seq<real>)
    ensures |r| == |b| && forall i :: 0 <= i < |b| ==> r[i] == Times(scale, b[i]) + shift
  {
    seq(|b|, i requires 0 <= i < |b| => Times(scale, b[i]) + shift)
  }

  lemma {:induction false} SumRescaled(b: seq<real>, scale: real, shift: real)
    ensures Sum(Rescaled(b, scale, shift)) == Times(scale, Sum(b)) + Times(|b| as real, shift)
  {
    if b != [] {
      var n := |b| - 1;
      assert Times(n as real + 1.0, shift) == Times(n as real, shift) + shift;
      hide Times;
      SumRescaled(b[..n], scale, shift);
      assert Rescaled(b, scale, shift)[..n] == Rescaled(b[..n], scale, shift);
      TimesDistributes(scale, Sum(b[..n]), b[n]);
    }
  }

  lemma MeanTimesCount(b: seq<real>)
    requires b != []
    ensures Times(|b| as real, MeanOf(b)) == Sum(b)
  {
  }

  lemma MeanRescaled(b: seq<real>, scale: real, shift: real)
    requires b != []
    ensures MeanOf(Rescaled(b, scale, shift)) == Times(scale, MeanOf(b)) + shift
  {
    hide Times, MeanOf, Sum, Rescaled;
    var r, n := Rescaled(b, scale, shift), |b| as real;
    SumRescaled(b, scale, shift);
    MeanTimesCount(b);
    MeanTimesCount(r);
    TimesAssociates(n, scale, MeanOf(b));
    TimesCommutes(n, scale);
    TimesAssociates(scale, n, MeanOf(b));
    TimesDistributes(n, Times(scale, MeanOf(b)), shift);
    TimesDistributes(n, MeanOf(r), Times(scale, MeanOf(b)) + shift);
    SignOfFactor(n, MeanOf(r) - (Times(scale, MeanOf(b)) + shift));
  }

  lemma DeviationsRescaled(b: seq<real>, scale: real, shift: real)
    requires b != []
    ensures Multiple(Deviations(Rescaled(b, scale, shift)), scale, Deviations(b))
  {
    hide Times, Mean;
    MeanRescaled(b, scale, shift);
    forall i | 0 <= i < |b|
      ensures Deviations(Rescaled(b, scale, shift))[i] == Times(scale, Deviations(b)[i])
    {
      TimesDistributes(scale, b[i], MeanOf(b));
    }
  }

  lemma CovariationRescaled(xs: seq<real>, ys: seq<real>, scale: real, shift: real)
    requires |xs| == |ys| && xs != []
    ensures Covariation(xs, Rescaled(ys, scale, shift)) == Times(scale, Covariation(xs, ys))
    ensures Covariation(Rescaled(ys, scale, shift), Rescaled(ys, scale, shift))
         == Times(Times(scale, scale), Covariation(ys, ys))
  {
    hide Times, MeanOf, Deviations, Rescaled, Multiple;
    var u, v, w := Deviations(xs), Deviations(ys), Deviations(Rescaled(ys, scale, shift));
    DeviationsRescaled(ys, scale, shift);
    DotScaled(v, u, w, scale);
    DotSymmetric(u, w);
    DotSymmetric(u, v);
    DotScaled(v, w, w, scale);
    DotScaled(v, v, w, scale);
    DotSymmetric(v, w);
    TimesAssociates(scale, scale, Dot(v, v));
  }

  lemma RootOfScaled(root: real -> real, k: real, v: real)
    requires SquareRoot(root) && k > 0.0 && v > 0.0
    ensures Times(Times(k, k), v) > 0.0 && root(v) > 0.0
    ensures root(Times(Times(k, k), v)) == Times(k, root(v))
  {
    TimesPositive(k, k);
    TimesPositive(Times(k, k), v);
    assert root(v) > 0.0 && Times(root(v), root(v)) == v;
    hide Times;
    TimesPositive(k, root(v));
    RegroupSquares(k, root(v));
    SquaresOrder(root(Times(Times(k, k), v)), Times(k, root(v)));
  }

  lemma CancelScale(k: real, z: real, p: real, q: real)
    requires k > 0.0 && p > 0.0 && q > 0.0
    ensures Times(p, q) > 0.0 && Times(p, Times(k, q)) > 0.0
    ensures Times(k, z) / Times(p, Times(k, q)) == z / Times(p, q)
  {
    TimesPositive(p, q);
    TimesPositive(k, Times(p, q));
    assert Times(p, Times(k, q)) == Times(k, Times(p, q)) by {
      TimesAssociates(p, k, q);
      TimesCommutes(p, k);
      TimesAssociates(k, p, q);
    }
    CancelFactor(k, z, Times(p, q));
  }

  lemma CancelFactor(k: real, z: real, d: real)
    requires k > 0.0 && d > 0.0 && Times(k, d) > 0.0
    ensures Times(k, z) / Times(k, d) == z / d
  {
    var t, r := z / d, Times(k, z) / Times(k, d);
    assert t * d == z;
    assert r * Times(k, d) == Times(k, z);
    assert Times(k, d) * (r - t) == 0.0 by {
      assert Times(k, d) * t == k * (t * d);
    }
    SignOfFactor(Times(k, d), r - t);
  }

  lemma NormalisedIgnoresScale(xs: seq<real>, ys: seq<real>, scale: real, shift: real, root: real -> real)
    requires SquareRoot(root) && scale > 0.0 && |xs| == |ys| && xs != []
    ensures Normalised(xs, Rescaled(ys, scale, shift), root) == Normalised(xs, ys, root)
  {
    hide Covariation, Times, Rescaled;
    CovariationRescaled(xs, ys, scale, shift);
    var varX, varY := Covariation(xs, xs), Covariation(ys, ys);
    ScaledSign(scale, varY);
    if varX > 0.0 && varY > 0.0 {
      RootOfScaled(root, scale, varY);
      CancelScale(scale, Covariation(xs, ys), root(varX), root(varY));
    }
  }

  /** Trading the same returns at another size, or with a constant added, does not change a correlation. */
  lemma CorrelationIgnoresScale(a: seq<real>, b: seq<real>, scale: real, shift: real, root: real -> real)
    requires SquareRoot(root) && scale > 0.0
    ensures Pearson(a, Rescaled(b, scale, shift), root) == Pearson(a, b, root)
  {
    hide Normalised, SquareRoot, Times;
    var n := Shorter(a, b);
    if n >= 2 {
      assert Rescaled(b, scale, shift)[..n] == Rescaled(b[..n], scale, shift);
      NormalisedIgnoresScale(a[..n], b[..n], scale, shift, root);
    }
  }

  lemma ScaledSign(k: real, v: real)
    requires k > 0.0
    ensures Times(Times(k, k), v) <= 0.0 <==> v <= 0.0
  {
    TimesPositive(k, k);
    if v > 0.0 { TimesPositive(Times(k, k), v); } else { MulOrder(v, 0.0, Times(k, k)); }
  }

  // ---------------------------------------------------------------- promotion evidence

  datatype Reason = Divergent(text: string) | Correlated(strategyId: string, correlation: real)

  datatype LiveReturns = LiveReturns(strategyId: string, outcomes: seq<Option<real>>)

  datatype PromotionDecision = PromotionDecision(eligible: bool, reasons: seq<Reason>, maxObserved: real)

  /** The returns of the signals that have resolved. */
  function Resolved(outcomes: seq<Option<real>>): seq<real> {
    if outcomes == [] then []
    else
      var rest, last := Resolved(outcomes[..|outcomes| - 1]), outcomes[|outcomes| - 1];
      if last.Some? then rest + [last.value] else rest
  }

  function Against(candidate: seq<real>, live: LiveReturns, root: real -> real): real
    requires SquareRoot(root)
  {
    AbsOf(Pearson(candidate, Resolved(live.outcomes), root))
  }

  /** One reason for each live strategy the candidate follows too closely, in order. */
  function TooClose(candidate: seq<real>, live: seq<LiveReturns>, limit: real, root: real -> real): seq<Reason>
    requires SquareRoot(root)
  {
    if live == [] then []
    else
      var rest, last := TooClose(candidate, live[..|live| - 1], limit, root), live[|live| - 1];
      var correlation := Against(candidate, last, root);
      if correlation > limit then rest + [Correlated(last.strategyId, correlation)] else rest
  }

  function Divergences(texts: seq<string>): seq<Reason> {
    seq(|texts|, i requires 0 <= i < |texts| => Divergent(texts[i]))
  }

  lemma {:induction false} TooCloseEmptyIff(candidate: seq<real>, live: seq<LiveReturns>, limit: real,
                                            root: real -> real)
    requires SquareRoot(root)
    ensures TooClose(candidate, live, limit, root) == []
            <==> forall i :: 0 <= i < |live| ==> Against(candidate, live[i], root) <= limit
  {
    hide SquareRoot, Against;
    if live != [] {
      TooCloseEmptyIff(candidate, live[..|live| - 1], limit, root);
      assert live == live[..|live| - 1] + [live[|live| - 1]];
    }
  }

  lemma AgainstBounded(candidate: seq<real>, live: LiveReturns, root: real -> real)
    requires SquareRoot(root)
    ensures 0.0 <= Against(candidate, live, root) <= 1.0
  {
    hide SquareRoot, Pearson;
    CorrelationBounded(candidate, Resolved(live.outcomes), root);
  }

  /** A candidate is eligible exactly when its incubation diverged in no way and it is within the limit of every
      live strategy; the largest correlation seen is reported either way. */
  method EvaluatePromotion(divergence: seq<string>, signals: seq<Option<real>>, live: seq<LiveReturns>, limit: real,
                           root: real -> real) returns (d: PromotionDecision)
    requires SquareRoot(root)
    ensures d.reasons == Divergences(divergence) + TooClose(Resolved(signals), live, limit, root)
    ensures d.eligible <==> && divergence == []
                            && forall i :: 0 <= i < |live| ==> Against(Resolved(signals), live[i], root) <= limit
    ensures 0.0 <= d.maxObserved <= 1.0
    ensures forall i :: 0 <= i < |live| ==> Against(Resolved(signals), live[i], root) <= d.maxObserved
    ensures d.maxObserved == 0.0
            || exists i :: 0 <= i < |live| && Against(Resolved(signals), live[i], root) == d.maxObserved
  {
    hide SquareRoot, Against, Pearson;
    var reasons, candidate, worst := Divergences(divergence), Resolved(signals), 0.0;
    for k := 0 to |live|
      invariant reasons == Divergences(divergence) + TooClose(candidate, live[..k], limit, root)
      invariant 0.0 <= worst <= 1.0
      invariant forall i :: 0 <= i < k ==> Against(candidate, live[i], root) <= worst
      invariant worst == 0.0 || exists i :: 0 <= i < k && Against(candidate, live[i], root) == worst
    {
      var correlation := Against(candidate, live[k], root);
      AgainstBounded(candidate, live[k], root);
      worst := MaxOf(worst, correlation);
      if correlation > limit {
        reasons := reasons + [Correlated(live[k].strategyId, correlation)];
      }
      assert live[..k + 1][..k] == live[..k];
    }
    assert live[..|live|] == live;
    TooCloseEmptyIff(candidate, live, limit, root);
    d := PromotionDecision(reasons == [], reasons, worst);
  }

  /** A rescaled copy of a live strategy that varies is never eligible while the limit is below one. */
  lemma {:induction false} CopiesAreTooClose(candidate: seq<real>, live: seq<LiveReturns>, k: nat, scale: real,
                                             shift: real, limit: real, root: real -> real)
    requires SquareRoot(root) && k < |live| && scale > 0.0 && limit < 1.0
    requires candidate == Rescaled(Resolved(live[k].outcomes), scale, shift)
    requires |candidate| >= 2 && Varies(Resolved(live[k].outcomes))
    ensures TooClose(candidate, live, limit, root) != []
  {
    hide SquareRoot, Pearson, Varies;
    var known := Resolved(live[k].outcomes);
    CorrelationBounded(candidate, known, root);
    CorrelationIgnoresScale(known, known, scale, shift, root);
    SelfCorrelation(known, root);
    assert Against(candidate, live[k], root) == 1.0;
    TooCloseEmptyIff(candidate, live, limit, root);
  }
}
