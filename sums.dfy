/** Exact sums and dot products over `real`, folded left to right as Python's
    `sum` and NumPy's reductions are. */
module Sums {

  function Sum(xs: seq<real>): real
    decreases |xs|
  {
    if xs == [] then 0.0 else Sum(xs[..|xs| - 1]) + xs[|xs| - 1]
  }

  /** `np.dot` of two vectors of the same length. */
  function Dot(a: seq<real>, b: seq<real>): real
    requires |a| == |b|
    decreases |a|
  {
    if a == [] then 0.0 else Dot(a[..|a| - 1], b[..|b| - 1]) + a[|a| - 1] * b[|b| - 1]
  }

  lemma {:induction false} SumConcat(a: seq<real>, b: seq<real>)
    ensures Sum(a + b) == Sum(a) + Sum(b)
    decreases |b|
  {
    if b == [] {
      assert a + b == a;
    } else {
      assert (a + b)[..|a + b| - 1] == a + b[..|b| - 1];
      SumConcat(a, b[..|b| - 1]);
    }
  }

  /** Scaling every term scales the sum. */
  lemma {:induction false} SumScaled(xs: seq<real>, c: real, ys: seq<real>)
    requires |ys| == |xs|
    requires forall i :: 0 <= i < |xs| ==> ys[i] == xs[i] * c
    ensures Sum(ys) == c * Sum(xs)
    decreases |xs|
  {
    if xs != [] {
      SumScaled(xs[..|xs| - 1], c, ys[..|ys| - 1]);
    }
  }

  /** A sum of terms that all lie in [lo, hi] lies in [n * lo, n * hi]. */
  lemma {:induction false} SumBounds(xs: seq<real>, lo: real, hi: real)
    requires forall i :: 0 <= i < |xs| ==> lo <= xs[i] <= hi
    ensures (|xs| as real) * lo <= Sum(xs) <= (|xs| as real) * hi
    decreases |xs|
  {
    if xs != [] {
      SumBounds(xs[..|xs| - 1], lo, hi);
    }
  }

  /** Dotting a row whose entries all equal `c` gives `c` times the sum of the weights. */
  lemma {:induction false} DotConstantRow(row: seq<real>, w: seq<real>, c: real)
    requires |row| == |w|
    requires forall i :: 0 <= i < |row| ==> row[i] == c
    ensures Dot(row, w) == c * Sum(w)
    decreases |row|
  {
    if row != [] {
      DotConstantRow(row[..|row| - 1], w[..|w| - 1], c);
    }
  }

  /** A dot product against weights that are zero except at `j` picks out
      the `j`-th entry times its weight. */
  lemma {:induction false} DotSingleWeight(row: seq<real>, w: seq<real>, j: nat)
    requires |row| == |w| && j < |w|
    requires forall i :: 0 <= i < |w| && i != j ==> w[i] == 0.0
    ensures Dot(row, w) == row[j] * w[j]
    decreases |row|
  {
    var n := |row|;
    if j == n - 1 {
      DotZeroWeights(row[..n - 1], w[..n - 1]);
    } else {
      DotSingleWeight(row[..n - 1], w[..n - 1], j);
      assert w[n - 1] == 0.0;
      assert row[n - 1] * w[n - 1] == 0.0;
    }
  }

  lemma {:induction false} DotZeroWeights(row: seq<real>, w: seq<real>)
    requires |row| == |w|
    requires forall i :: 0 <= i < |w| ==> w[i] == 0.0
    ensures Dot(row, w) == 0.0
    decreases |row|
  {
    if row != [] {
      DotZeroWeights(row[..|row| - 1], w[..|w| - 1]);
      assert row[|row| - 1] * w[|w| - 1] == 0.0;
    }
  }

  /** Summing an affine image: the sum of k x + c over xs is k times the sum plus n c. */
  lemma {:induction false} SumAffine(xs: seq<real>, ys: seq<real>, k: real, c: real)
    requires |ys| == |xs|
    requires forall i :: 0 <= i < |xs| ==> ys[i] == k * xs[i] + c
    ensures Sum(ys) == k * Sum(xs) + (|xs| as real) * c
    decreases |xs|
  {
    if xs != [] {
      var n := |xs|;
      SumAffine(xs[..n - 1], ys[..n - 1], k, c);
      Distribute(k, Sum(xs[..n - 1]), xs[n - 1]);
      Distribute(c, (n - 1) as real, 1.0);
    }
  }

  lemma Distribute(k: real, a: real, b: real)
    ensures k * (a + b) == k * a + k * b && (a + b) * k == a * k + b * k
  {
  }
}
