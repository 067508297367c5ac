/**
 * Real-valued vectors (the `feat_len`-long rows of a blob) and the few
 * operations the layers apply to them.
 */
module Vectors {

  /** The zero vector of length `len`. */
  function Zeros(len: nat): (v: seq<real>)
    ensures |v| == len
    ensures forall k :: 0 <= k < len ==> v[k] == 0.0
  {
    seq(len, _ => 0.0)
  }

  /** Component-wise sum. */
  function Add(u: seq<real>, v: seq<real>): (w: seq<real>)
    requires |u| == |v|
    ensures |w| == |u|
    ensures forall k :: 0 <= k < |w| ==> w[k] == u[k] + v[k]
  {
    seq(|u|, k requires 0 <= k < |u| => u[k] + v[k])
  }

  /** Component-wise difference. */
  function Sub(u: seq<real>, v: seq<real>): (w: seq<real>)
    requires |u| == |v|
    ensures |w| == |u|
    ensures forall k :: 0 <= k < |w| ==> w[k] == u[k] - v[k]
  {
    seq(|u|, k requires 0 <= k < |u| => u[k] - v[k])
  }

  /** Multiplication by the scalar `alpha`. */
  function Scale(alpha: real, v: seq<real>): (w: seq<real>)
    ensures |w| == |v|
    ensures forall k :: 0 <= k < |w| ==> w[k] == alpha * v[k]
  {
    seq(|v|, k requires 0 <= k < |v| => alpha * v[k])
  }

  /** Inner product of the first `k` components, accumulated from the first to the last. */
  function DotUpTo(u: seq<real>, v: seq<real>, k: nat): real
    requires k <= |u| && k <= |v|
  {
    if k == 0 then 0.0 else DotUpTo(u, v, k - 1) + u[k - 1] * v[k - 1]
  }

  /** Inner product. */
  function Dot(u: seq<real>, v: seq<real>): real
    requires |u| == |v|
  {
    DotUpTo(u, v, |u|)
  }

  /** A squared norm is never negative. */
  lemma {:induction false} DotUpToSelfNonNegative(v: seq<real>, k: nat)
    requires k <= |v|
    ensures DotUpTo(v, v, k) >= 0.0
  {
    if k > 0 {
      DotUpToSelfNonNegative(v, k - 1);
      assert v[k - 1] * v[k - 1] >= 0.0;
    }
  }

  /** A squared norm is never negative. */
  lemma DotSelfNonNegative(v: seq<real>)
    ensures Dot(v, v) >= 0.0
  {
    DotUpToSelfNonNegative(v, |v|);
  }

  /** `caffe_scal` guarded by `alpha != 1`: the guard only skips a multiplication by one. */
  function ScaleUnlessOne(alpha: real, v: seq<real>): (w: seq<real>)
    ensures w == Scale(alpha, v)
  {
    ScaleOne(v);
    if alpha != 1.0 then Scale(alpha, v) else v
  }

  /** Scaling twice is scaling once by the product `gamma`. */
  lemma ScaleTwice(alpha: real, beta: real, gamma: real, v: seq<real>)
    requires gamma == alpha * beta
    ensures Scale(alpha, Scale(beta, v)) == Scale(gamma, v)
  {
    var l, r := Scale(alpha, Scale(beta, v)), Scale(gamma, v);
    forall k | 0 <= k < |v|
      ensures l[k] == r[k]
    {
      assert alpha * (beta * v[k]) == (alpha * beta) * v[k];
    }
  }

  /** Scaling by one changes nothing. */
  lemma ScaleOne(v: seq<real>)
    ensures Scale(1.0, v) == v
  {
  }

  /** Taking `m` copies of the `1/m`-th part of `v` gives `v` back. */
  lemma MeanCancels(m: real, v: seq<real>)
    requires m != 0.0
    ensures Sub(v, Scale(m, Scale(1.0 / m, v))) == Zeros(|v|)
  {
    var w := Sub(v, Scale(m, Scale(1.0 / m, v)));
    forall k | 0 <= k < |v|
      ensures w[k] == 0.0
    {
      assert m * ((1.0 / m) * v[k]) == (m * (1.0 / m)) * v[k];
    }
  }

  /** Every vector of `vs` has length `len`. */
  predicate Uniform(vs: seq<seq<real>>, len: nat)
  {
    forall x :: 0 <= x < |vs| ==> |vs[x]| == len
  }

  /** Component-wise sum of the vectors of `vs`, accumulated from the front. */
  function VecSum(vs: seq<seq<real>>, len: nat): (v: seq<real>)
    requires Uniform(vs, len)
    ensures |v| == len
  {
    if |vs| == 0 then Zeros(len) else Add(VecSum(vs[..|vs| - 1], len), vs[|vs| - 1])
  }

  /** Appending a vector adds it to the sum. */
  lemma VecSumAppend(vs: seq<seq<real>>, v: seq<real>, len: nat)
    requires Uniform(vs, len) && |v| == len
    ensures Uniform(vs + [v], len)
    ensures VecSum(vs + [v], len) == Add(VecSum(vs, len), v)
  {
    assert (vs + [v])[..|vs|] == vs;
  }

  /** Sum of the offsets of the vectors of `vs` from `center`. */
  function DeviationSum(vs: seq<seq<real>>, len: nat, center: seq<real>): (v: seq<real>)
    requires Uniform(vs, len) && |center| == len
    ensures |v| == len
  {
    if |vs| == 0 then Zeros(len)
    else Add(DeviationSum(vs[..|vs| - 1], len, center), Sub(vs[|vs| - 1], center))
  }

  /** The offsets from `center` add up to the sum minus `|vs|` copies of `center`. */
  lemma {:induction false} DeviationSumIsSumMinusCount(vs: seq<seq<real>>, len: nat, center: seq<real>)
    requires Uniform(vs, len) && |center| == len
    ensures DeviationSum(vs, len, center) == Sub(VecSum(vs, len), Scale(|vs| as real, center))
  {
    if |vs| > 0 {
      var init, last := vs[..|vs| - 1], vs[|vs| - 1];
      DeviationSumIsSumMinusCount(init, len, center);
      var dInit, sInit := DeviationSum(init, len, center), VecSum(init, len);
      var lhs := Add(dInit, Sub(last, center));
      var rhs := Sub(Add(sInit, last), Scale(|vs| as real, center));
      forall k | 0 <= k < len
        ensures lhs[k] == rhs[k]
      {
        assert dInit[k] == sInit[k] - (|init| as real) * center[k];
        assert (|vs| as real) * center[k] == (|init| as real) * center[k] + center[k];
      }
      assert lhs == rhs;
    }
  }

  /** The mean of a non-empty family is its balance point: the offsets from it cancel. */
  lemma MeanIsBalanced(vs: seq<seq<real>>, len: nat)
    requires Uniform(vs, len) && |vs| > 0
    ensures DeviationSum(vs, len, Scale(1.0 / (|vs| as real), VecSum(vs, len))) == Zeros(len)
  {
    var m := |vs| as real;
    var sum := VecSum(vs, len);
    DeviationSumIsSumMinusCount(vs, len, Scale(1.0 / m, sum));
    MeanCancels(m, sum);
  }

  /** Sum of a sequence of reals, accumulated from the front. */
  function Sum(xs: seq<real>): real
  {
    if |xs| == 0 then 0.0 else Sum(xs[..|xs| - 1]) + xs[|xs| - 1]
  }
}
