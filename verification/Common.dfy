/** Small shared vocabulary: optional values, error-carrying results and sums of reals. */
module Common {

  datatype Option<+T> = None | Some(value: T)

  datatype Result<+T, +E> = Success(value: T) | Failure(error: E)

  function MaxOf(a: real, b: real): real {
    if a >= b then a else b
  }

  function MinOf(a: real, b: real): real {
    if a <= b then a else b
  }

  function AbsOf(a: real): real {
    if a >= 0.0 then a else -a
  }

  function Sum(v: seq<real>): real {
    if v == [] then 0.0 else Sum(v[..|v| - 1]) + v[|v| - 1]
  }

  /** The first `n` of a sequence, or all of it. */
  function AtMost<T>(s: seq<T>, n: int): seq<T> {
    if n <= 0 then [] else if n >= |s| then s else s[..n]
  }

  function Mean(total: real, n: nat): real
    requires n > 0
  {
    total / n as real
  }

  lemma MeanTimes(total: real, n: nat)
    requires n > 0
    ensures Mean(total, n) * n as real == total
  {
    var q := total / n as real;
    assert q * n as real == total;
  }

  /** Appending one value adds it to the sum. */
  lemma SumAppend(v: seq<real>, x: real)
    ensures Sum(v + [x]) == Sum(v) + x
  {
    assert (v + [x])[..|v|] == v;
  }

  /** Dropping the oldest value of a window takes it off the sum. */
  lemma {:induction false} SumDropFirst(v: seq<real>)
    requires v != []
    ensures Sum(v) == v[0] + Sum(v[1..])
  {
    if |v| > 1 {
      SumDropFirst(v[..|v| - 1]);
      assert v[..|v| - 1][1..] == v[1..][..|v| - 2];
    }
  }

  /** A sum of bounded values is bounded by as many copies of the bounds. */
  lemma {:induction false} SumBounds(v: seq<real>, lo: real, hi: real)
    requires forall j :: 0 <= j < |v| ==> lo <= v[j] <= hi
    ensures |v| as real * lo <= Sum(v) <= |v| as real * hi
  {
    if v != [] {
      SumBounds(v[..|v| - 1], lo, hi);
    }
  }

  /** A product under a name, so that proofs can keep it abstract. */
  function Times(a: real, b: real): real {
    a * b
  }

  lemma MulOrder(a: real, b: real, c: real)
    requires a <= b && c >= 0.0
    ensures a * c <= b * c
  {
  }

  lemma MulStrict(a: real, b: real, c: real)
    requires a < b && c > 0.0
    ensures a * c < b * c
  {
  }

  lemma TimesMonotone(a: real, b: real, price: real)
    requires a <= b && price >= 0.0
    ensures Times(a, price) <= Times(b, price)
  {
    MulOrder(a, b, price);
  }

  lemma TimesCommutes(a: real, b: real)
    ensures Times(a, b) == Times(b, a)
  {
  }

  lemma TimesAssociates(a: real, b: real, c: real)
    ensures Times(Times(a, b), c) == Times(a, Times(b, c))
  {
  }

  lemma TimesPositive(a: real, b: real)
    requires a > 0.0 && b > 0.0
    ensures Times(a, b) > 0.0
  {
  }
}
