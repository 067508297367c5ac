/**
 * The Caffe math routines the layers call (`caffe_set`, `caffe_add`,
 * `caffe_sub`, `caffe_cpu_scale`, `caffe_cpu_dot`, `caffe_cpu_axpby`),
 * specialised to the argument patterns the layers use: each works on the
 * `len` consecutive elements of an array that start at `off`, and leaves
 * every other element alone.
 */
module Blas {
  import opened Vectors

  /** caffe_set: every element of the range becomes `v`. */
  method Set(a: array<real>, off: nat, len: nat, v: real)
    requires off + len <= a.Length
    modifies a
    ensures forall q :: 0 <= q < a.Length && !(off <= q < off + len) ==> a[q] == old(a[q])
    ensures forall q :: off <= q < off + len ==> a[q] == v
  {
    var k := 0;
    while k < len
      invariant 0 <= k <= len
      invariant forall q :: 0 <= q < a.Length && !(off <= q < off + k) ==> a[q] == old(a[q])
      invariant forall q :: off <= q < off + k ==> a[q] == v
    {
      a[off + k] := v;
      k := k + 1;
    }
  }

  /** caffe_add(len, x, y, y): the range is incremented by `x`. */
  method AddInto(x: seq<real>, a: array<real>, off: nat)
    requires off + |x| <= a.Length
    modifies a
    ensures forall q :: 0 <= q < a.Length && !(off <= q < off + |x|) ==> a[q] == old(a[q])
    ensures a[off .. off + |x|] == Add(old(a[off .. off + |x|]), x)
  {
    ghost var before := a[off .. off + |x|];
    var k := 0;
    while k < |x|
      invariant 0 <= k <= |x|
      invariant forall q :: 0 <= q < a.Length && !(off <= q < off + k) ==> a[q] == old(a[q])
      invariant forall j :: 0 <= j < k ==> a[off + j] == before[j] + x[j]
    {
      a[off + k] := a[off + k] + x[k];
      k := k + 1;
    }
    assert forall j :: 0 <= j < |x| ==> a[off .. off + |x|][j] == Add(before, x)[j];
  }

  /** caffe_sub(len, x, y, out): the range becomes `x - y`. */
  method SubInto(x: seq<real>, y: seq<real>, a: array<real>, off: nat)
    requires |x| == |y| && off + |x| <= a.Length
    modifies a
    ensures forall q :: 0 <= q < a.Length && !(off <= q < off + |x|) ==> a[q] == old(a[q])
    ensures a[off .. off + |x|] == Sub(x, y)
  {
    var k := 0;
    while k < |x|
      invariant 0 <= k <= |x|
      invariant forall q :: 0 <= q < a.Length && !(off <= q < off + k) ==> a[q] == old(a[q])
      invariant forall j :: 0 <= j < k ==> a[off + j] == x[j] - y[j]
    {
      a[off + k] := x[k] - y[k];
      k := k + 1;
    }
    assert forall j :: 0 <= j < |x| ==> a[off .. off + |x|][j] == Sub(x, y)[j];
  }

  /** caffe_cpu_scale(len, alpha, x, x): the range is multiplied by `alpha`. */
  method ScaleInPlace(alpha: real, a: array<real>, off: nat, len: nat)
    requires off + len <= a.Length
    modifies a
    ensures forall q :: 0 <= q < a.Length && !(off <= q < off + len) ==> a[q] == old(a[q])
    ensures a[off .. off + len] == Scale(alpha, old(a[off .. off + len]))
  {
    ghost var before := a[off .. off + len];
    var k := 0;
    while k < len
      invariant 0 <= k <= len
      invariant forall q :: 0 <= q < a.Length && !(off <= q < off + k) ==> a[q] == old(a[q])
      invariant forall j :: 0 <= j < k ==> a[off + j] == alpha * before[j]
    {
      a[off + k] := alpha * a[off + k];
      k := k + 1;
    }
    assert forall j :: 0 <= j < len ==> a[off .. off + len][j] == Scale(alpha, before)[j];
  }

  /** caffe_cpu_axpby(len, alpha, x, 0, y): the range becomes `alpha * x + 0 * y`. */
  method AxpbyZero(alpha: real, x: seq<real>, a: array<real>, off: nat)
    requires off + |x| <= a.Length
    modifies a
    ensures forall q :: 0 <= q < a.Length && !(off <= q < off + |x|) ==> a[q] == old(a[q])
    ensures a[off .. off + |x|] == Scale(alpha, x)
  {
    var k := 0;
    while k < |x|
      invariant 0 <= k <= |x|
      invariant forall q :: 0 <= q < a.Length && !(off <= q < off + k) ==> a[q] == old(a[q])
      invariant forall j :: 0 <= j < k ==> a[off + j] == alpha * x[j]
    {
      a[off + k] := alpha * x[k] + 0.0 * a[off + k];
      k := k + 1;
    }
    assert forall j :: 0 <= j < |x| ==> a[off .. off + |x|][j] == Scale(alpha, x)[j];
  }

  /** caffe_cpu_dot(len, x, x): the squared norm of the range. */
  method DotSelf(a: array<real>, off: nat, len: nat) returns (r: real)
    requires off + len <= a.Length
    ensures r == Dot(a[off .. off + len], a[off .. off + len])
  {
    ghost var x := a[off .. off + len];
    r := 0.0;
    var k := 0;
    while k < len
      invariant 0 <= k <= len
      invariant r == DotUpTo(x, x, k)
    {
      r := r + a[off + k] * a[off + k];
      k := k + 1;
    }
  }
}
