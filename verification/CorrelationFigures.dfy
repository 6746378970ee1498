/** The correlation in sums of products over the paired values. */
module CorrelationFigures {
  import opened Common
  import opened Correlation

  /** The inner product of two series shifted by `p` and `q`, from their sums. */
  function Shifted(products: real, sumX: real, sumY: real, p: real, q: real, n: real): real {
    products - q * sumX - p * sumY + n * (p * q)
  }

  /** A shifted inner product, multiplied out. */
  lemma {:induction false} ShiftedDot(xs: seq<real>, ys: seq<real>, dx: seq<real>, dy: seq<real>, p: real, q: real,
                                      products: seq<real>)
    requires |xs| == |ys| == |dx| == |dy| == |products|
    requires forall i :: 0 <= i < |xs| ==>
               dx[i] == xs[i] - p && dy[i] == ys[i] - q && products[i] == Times(xs[i], ys[i])
    ensures Dot(dx, dy) == Shifted(Sum(products), Sum(xs), Sum(ys), p, q, |xs| as real)
  {
    if xs == [] {
      assert Shifted(0.0, 0.0, 0.0, p, q, 0.0) == 0.0;
    } else {
      hide Shifted, Times;
      var n := |xs| - 1;
      ShiftedDot(xs[..n], ys[..n], dx[..n], dy[..n], p, q, products[..n]);
      ShiftedByOne(Sum(products[..n]), Sum(xs[..n]), Sum(ys[..n]), xs[n], ys[n], p, q, n as real);
    }
  }

  lemma ShiftedByOne(products: real, sumX: real, sumY: real, x: real, y: real, p: real, q: real, n: real)
    ensures Shifted(products, sumX, sumY, p, q, n) + Times(x - p, y - q)
         == Shifted(products + Times(x, y), sumX + x, sumY + y, p, q, n + 1.0)
  {
    var c := p * q;
    assert (x - p) * (y - q) == x * y - q * x - p * y + c by {
      assert (x - p) * (y - q) == x * (y - q) - p * (y - q);
      assert x * (y - q) == x * y - x * q;
      assert p * (y - q) == p * y - p * q;
    }
    assert q * (sumX + x) == q * sumX + q * x;
    assert p * (sumY + y) == p * sumY + p * y;
    assert (n + 1.0) * c == n * c + c;
  }

  /** The covariation times the number of pairs: that many times the sum of products, less the product of the sums. */
  lemma CovariationInFigures(xs: seq<real>, ys: seq<real>, products: seq<real>)
    requires |xs| == |ys| == |products| && xs != []
    requires forall i :: 0 <= i < |xs| ==> products[i] == Times(xs[i], ys[i])
    ensures var n := |xs| as real; Times(n, Covariation(xs, ys)) == Times(n, Sum(products)) - Times(Sum(xs), Sum(ys))
  {
    hide Sum, MeanOf, Dot, Times, Shifted;
    var n, p, q := |xs| as real, MeanOf(xs), MeanOf(ys);
    ShiftedDot(xs, ys, Deviations(xs), Deviations(ys), p, q, products);
    MeanOfTimes(xs);
    MeanOfTimes(ys);
    MeansCancel(n, p, q, Sum(xs), Sum(ys), Sum(products), Covariation(xs, ys));
  }

  lemma MeanOfTimes(s: seq<real>)
    requires s != []
    ensures Times(MeanOf(s), |s| as real) == Sum(s)
  {
    MeanTimes(Sum(s), |s|);
  }

  lemma MeansCancel(n: real, p: real, q: real, sumX: real, sumY: real, products: real, c: real)
    requires Times(p, n) == sumX && Times(q, n) == sumY && c == Shifted(products, sumX, sumY, p, q, n)
    ensures Times(n, c) == Times(n, products) - Times(sumX, sumY)
  {
    var w := n * (p * q);
    assert q * sumX == w by { assert q * (p * n) == n * (p * q); }
    assert p * sumY == w by { assert p * (q * n) == n * (p * q); }
    assert n * w == sumX * sumY by { assert (p * n) * (q * n) == n * (n * (p * q)); }
    assert c == products - w;
    assert n * (products - w) == n * products - n * w;
  }

  /** A correlation has the covariation's sign, and its square times both variations is the covariation's; without two
      pairs, or when either series is flat, it is zero. */
  lemma PearsonInFigures(a: seq<real>, b: seq<real>, root: real -> real)
    requires SquareRoot(root)
    ensures var n, r := Shorter(a, b), Pearson(a, b, root);
      if n >= 2 && Varies(a[..n]) && Varies(b[..n]) then
        var x, y, z := Covariation(a[..n], a[..n]), Covariation(b[..n], b[..n]), Covariation(a[..n], b[..n]);
        Times(Times(r, r), Times(x, y)) == Times(z, z) && (r > 0.0 <==> z > 0.0) && (r < 0.0 <==> z < 0.0)
      else r == 0.0
    ensures Shorter(a, b) <= |a| && Shorter(a, b) <= |b| && (Shorter(a, b) == |a| || Shorter(a, b) == |b|)
  {
    hide Covariation, SquareRoot, Times;
    var n := Shorter(a, b);
    if n >= 2 && Varies(a[..n]) && Varies(b[..n]) {
      var x, y, z := Covariation(a[..n], a[..n]), Covariation(b[..n], b[..n]), Covariation(a[..n], b[..n]);
      RootsMultiply(x, y, root);
      QuotientInFigures(z, Times(root(x), root(y)), Times(x, y));
    }
  }

  lemma QuotientInFigures(z: real, d: real, square: real)
    requires d > 0.0 && Times(d, d) == square
    ensures Times(Times(z / d, z / d), square) == Times(z, z)
    ensures (z / d > 0.0 <==> z > 0.0) && (z / d < 0.0 <==> z < 0.0)
  {
    var r := z / d;
    assert r * d == z;
    RegroupSquares(r, d);
    if r > 0.0 { TimesPositive(r, d); } else if r < 0.0 { TimesPositive(-r, d); }
  }
}
