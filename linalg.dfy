/** Finite sums and dot products over `real`, the arithmetic that the tensor
    operations and the aggregation matrix are built from. */
module LinAlg {

  /** `m` has `rows` rows of `cols` entries each. */
  predicate IsMatrix(m: seq<seq<real>>, rows: nat, cols: nat) {
    |m| == rows && forall i :: 0 <= i < rows ==> |m[i]| == cols
  }

  /** A sequence of `n` zeros. */
  function Zeros(n: nat): (z: seq<real>)
    ensures |z| == n && forall i :: 0 <= i < n ==> z[i] == 0.0
  {
    seq(n, i => 0.0)
  }

  /** The sum of the entries of `s`. */
  function Sum(s: seq<real>): real {
    if |s| == 0 then 0.0 else Sum(s[..|s| - 1]) + s[|s| - 1]
  }

  /** The inner product of two vectors of equal length. */
  function Dot(u: seq<real>, v: seq<real>): real
    requires |u| == |v|
  {
    if |u| == 0 then 0.0 else Dot(u[..|u| - 1], v[..|v| - 1]) + u[|u| - 1] * v[|v| - 1]
  }

  /** Pointwise sum of two vectors. */
  function Plus(u: seq<real>, v: seq<real>): (w: seq<real>)
    requires |u| == |v|
    ensures |w| == |u| && forall i :: 0 <= i < |u| ==> w[i] == u[i] + v[i]
  {
    seq(|u|, i requires 0 <= i < |u| => u[i] + v[i])
  }

  /** A vector whose entries all equal `c` sums to `|s| * c`. */
  lemma {:induction false} SumConstant(s: seq<real>, c: real)
    requires forall i :: 0 <= i < |s| ==> s[i] == c
    ensures Sum(s) == |s| as real * c
  {
    if |s| > 0 {
      SumConstant(s[..|s| - 1], c);
    }
  }

  /** The dot product is linear in its first argument. */
  lemma {:induction false} DotPlus(u: seq<real>, v: seq<real>, w: seq<real>)
    requires |u| == |v| == |w|
    ensures Dot(Plus(u, v), w) == Dot(u, w) + Dot(v, w)
  {
    if |u| > 0 {
      var n := |u| - 1;
      assert Plus(u, v)[..n] == Plus(u[..n], v[..n]);
      DotPlus(u[..n], v[..n], w[..n]);
    }
  }

  /** The sum is additive. */
  lemma {:induction false} SumPlus(u: seq<real>, v: seq<real>)
    requires |u| == |v|
    ensures Sum(Plus(u, v)) == Sum(u) + Sum(v)
  {
    if |u| > 0 {
      var n := |u| - 1;
      assert Plus(u, v)[..n] == Plus(u[..n], v[..n]);
      SumPlus(u[..n], v[..n]);
    }
  }

  /** Dividing a sum is summing the quotients. */
  lemma DivPlus(a: real, b: real, d: real)
    requires d != 0.0
    ensures (a + b) / d == a / d + b / d
  {
  }

  /** A zero vector has a zero dot product with anything. */
  lemma {:induction false} DotZeroLeft(u: seq<real>, w: seq<real>)
    requires |u| == |w|
    requires forall i :: 0 <= i < |u| ==> u[i] == 0.0
    ensures Dot(u, w) == 0.0
  {
    if |u| > 0 {
      DotZeroLeft(u[..|u| - 1], w[..|w| - 1]);
    }
  }

  /** The dot product of two concatenations splits at the seam. */
  lemma {:induction false} DotConcat(a: seq<real>, b: seq<real>, c: seq<real>, d: seq<real>)
    requires |a| == |c| && |b| == |d|
    ensures Dot(a + b, c + d) == Dot(a, c) + Dot(b, d)
  {
    if |b| > 0 {
      var n := |b| - 1;
      assert (a + b)[..|a| + n] == a + b[..n];
      assert (c + d)[..|c| + n] == c + d[..n];
      DotConcat(a, b[..n], c, d[..n]);
    } else {
      assert a + b == a && c + d == c;
    }
  }

  /** A unit vector picks out one component. */
  lemma {:induction false} DotUnit(u: seq<real>, v: seq<real>, r: nat)
    requires |u| == |v| && r < |u|
    requires forall j :: 0 <= j < |u| ==> u[j] == if j == r then 1.0 else 0.0
    ensures Dot(u, v) == v[r]
  {
    var n := |u| - 1;
    if r == n {
      DotZeroLeft(u[..n], v[..n]);
    } else {
      DotUnit(u[..n], v[..n], r);
    }
  }

  /** The mean of a non-empty vector of equal entries is that entry. */
  lemma MeanOfConstant(w: seq<real>, v: real)
    requires |w| > 0 && forall i :: 0 <= i < |w| ==> w[i] == v
    ensures Sum(w) / |w| as real == v
  {
    SumConstant(w, v);
  }

  /** The mean of a pointwise sum is the sum of the means. */
  lemma MeanPlus(u: seq<real>, v: seq<real>)
    requires |u| == |v| > 0
    ensures Sum(Plus(u, v)) / |u| as real == Sum(u) / |u| as real + Sum(v) / |u| as real
  {
    SumPlus(u, v);
    DivPlus(Sum(u), Sum(v), |u| as real);
  }
}
