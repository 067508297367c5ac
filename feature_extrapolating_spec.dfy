/**
 * The tables and the per-pixel rule of the feature-extrapolating layer.  A
 * pyramid of `b` base scales (one input sample per base scale and image) is
 * extended to `(b - 1) * p + 1` scales by placing `p - 1` interpolated scales
 * between neighbouring base scales; an output sample at a base scale copies
 * its input sample, any other one is resampled from the nearest base scale.
 */
module FeatureExtrapolatingSpec {
  import opened Flat

  /** `channels_trace_`: four (input index, weight) pairs per output pixel. */
  const ChannelsTrace: nat := 8

  // ---------------------------------------------------------------- scales

  /** `num_scale_`, in the source's integer arithmetic (`b == 0` makes it `1 - p`). */
  function NumScale(p: nat, b: nat): int
  {
    (b - 1) * p + 1
  }

  /**
   * With at least one base scale there are at least as many scales as base
   * scales and every base scale `k` has its slot `k * p`; with none there is
   * no scale at all.
   */
  lemma NumScaleBounds(p: nat, b: nat)
    requires p > 0
    ensures b > 0 ==> NumScale(p, b) >= b
    ensures b > 0 ==> forall k :: 0 <= k < b ==> k * p < NumScale(p, b)
    ensures b == 0 ==> NumScale(p, b) <= 0
  {
    if b > 0 {
      MulLe(1, p, b - 1);
      forall k | 0 <= k < b
        ensures k * p < NumScale(p, b)
      {
        MulLe(k, b - 1, p);
      }
    }
  }

  /**
   * Scale `i` lies in octave `i / p`, which is a base scale; when `i` is not
   * itself a base scale the next base scale `i / p + 1` exists too.
   */
  lemma ScaleIndexInRange(p: nat, b: nat, i: nat)
    requires p > 0 && b > 0 && i < NumScale(p, b)
    ensures i / p < b
    ensures i % p != 0 ==> i / p + 1 < b
  {
    var k, j := i / p, i % p;
    assert i == k * p + j;
    assert (b - 1) * p + p == b * p;
    if b <= k {
      MulLe(b, k, p);
    }
  }

  /** `scales_[i]`: the base scale at `i = k * p`, else `j` steps of a `p`-th of the way to the next one. */
  function ScaleAt(base: seq<real>, p: nat, i: nat): real
    requires p > 0 && |base| > 0 && i < NumScale(p, |base|)
  {
    ScaleIndexInRange(p, |base|, i);
    var k, j := i / p, i % p;
    if j == 0 then base[k]
    else
      var step := (base[k + 1] - base[k]) / (p as real);
      base[k] + (j as real) * step
  }

  /** The scale table. */
  function Scales(base: seq<real>, p: nat): (s: seq<real>)
    requires p > 0 && |base| > 0
    ensures |s| == NumScale(p, |base|)
  {
    seq(NumScale(p, |base|), i requires 0 <= i < NumScale(p, |base|) => ScaleAt(base, p, i))
  }

  /** The scale `k * p` is base scale `k`. */
  lemma RealScaleIsBase(base: seq<real>, p: nat, k: nat)
    requires p > 0 && k < |base|
    ensures (NumScaleBounds(p, |base|); ScaleAt(base, p, k * p) == base[k])
  {
    NumScaleBounds(p, |base|);
    DivMod(k, 0, p);
  }

  /** An interpolated scale lies between the two base scales around it. */
  lemma ScaleBetween(base: seq<real>, p: nat, i: nat)
    requires p > 0 && |base| > 0 && i < NumScale(p, |base|) && i % p != 0
    ensures (ScaleIndexInRange(p, |base|, i);
      var lo, hi := base[i / p], base[i / p + 1];
      && (lo <= hi ==> lo <= ScaleAt(base, p, i) <= hi)
      && (hi <= lo ==> hi <= ScaleAt(base, p, i) <= lo))
  {
    ScaleIndexInRange(p, |base|, i);
    var k, j := i / p, i % p;
    var lo, hi := base[k], base[k + 1];
    assert 0 < j < p;
    assert ScaleAt(base, p, i) == lo + (j as real) * ((hi - lo) / (p as real));
    StepBetween(lo, hi, j as real, p as real);
  }

  /** `j` steps of `(hi - lo) / p` from `lo`, for `0 < j < p`, stay between `lo` and `hi`. */
  lemma StepBetween(lo: real, hi: real, j: real, p: real)
    requires 0.0 < j < p
    ensures var v := lo + j * ((hi - lo) / p);
      && (lo <= hi ==> lo <= v <= hi)
      && (hi <= lo ==> hi <= v <= lo)
  {
    var step := (hi - lo) / p;
    assert p * step == hi - lo;
    if lo <= hi {
      assert step >= 0.0;
      assert (p - j) * step >= 0.0;
    } else {
      assert step <= 0.0;
      assert (p - j) * step <= 0.0;
    }
  }

  /** The flag table `is_real_scales_`: 1 at a multiple of `p`, 0 elsewhere. */
  function Flags(p: nat, b: nat): (f: seq<int>)
    requires p > 0 && b > 0
    ensures |f| == NumScale(p, b)
  {
    NumScaleBounds(p, b);
    seq(NumScale(p, b), i requires 0 <= i < NumScale(p, b) => if i % p == 0 then 1 else 0)
  }

  /** The real scales are exactly the base scales: flag `i` is set iff `i = k * p` for a base scale `k`. */
  lemma FlagsMarkBaseScales(p: nat, b: nat, i: nat)
    requires p > 0 && b > 0 && i < NumScale(p, b)
    ensures Flags(p, b)[i] == 1 <==> exists k :: 0 <= k < b && i == k * p
    ensures Flags(p, b)[i] == 0 || Flags(p, b)[i] == 1
  {
    if i % p == 0 {
      ScaleIndexInRange(p, b, i);
      assert i == (i / p) * p;
    } else {
      forall k | 0 <= k < b && i == k * p
        ensures false
      {
        DivMod(k, 0, p);
      }
    }
  }

  // --------------------------------------------------------------- mapping

  /** `roundf`: the nearest integer, halves away from zero. */
  function RoundF(x: real): int
  {
    if x >= 0.0 then (x + 0.5).Floor else -((-x + 0.5).Floor)
  }

  /** `roundf` is within a half of its argument, and a half goes away from zero. */
  lemma RoundFIsNearest(x: real)
    ensures (RoundF(x) as real) - 0.5 <= x <= (RoundF(x) as real) + 0.5
    ensures x >= 0.0 ==> x < (RoundF(x) as real) + 0.5
    ensures x < 0.0 ==> (RoundF(x) as real) - 0.5 < x
  {
  }

  /** `which_base_scales_[i] = int(roundf(float(i) / float(p)))`. */
  function Nearest(p: nat, i: nat): int
    requires p > 0
  {
    RoundF((i as real) / (p as real))
  }

  /** The floor of an exact quotient of naturals is their integer quotient. */
  lemma FloorOfQuotient(n: nat, d: nat)
    requires d > 0
    ensures ((n as real) / (d as real)).Floor == n / d
  {
    var q, r := n / d, n % d;
    assert n == q * d + r && 0 <= r < d;
    var x := (n as real) / (d as real);
    assert (n as real) == (q as real) * (d as real) + (r as real);
    assert x * (d as real) == n as real;
    assert (q as real) * (d as real) <= x * (d as real) < ((q + 1) as real) * (d as real);
    assert (q as real) <= x < (q + 1) as real;
  }

  /** A real quotient is the one number that gives the dividend back. */
  lemma QuotientUnique(x: real, n: real, d: real)
    requires d != 0.0 && x * d == n
    ensures x == n / d
  {
  }

  /** The rounding in integer arithmetic: `(2 i + p) / (2 p)`. */
  lemma NearestIsIntegerRounding(p: nat, i: nat)
    requires p > 0
    ensures Nearest(p, i) == (2 * i + p) / (2 * p)
  {
    var y := (i as real) / (p as real);
    assert y >= 0.0;
    var d := (2 * p) as real;
    assert y + 0.5 == ((2 * i + p) as real) / d by {
      assert y * (p as real) == i as real;
      assert d == 2.0 * (p as real);
      assert (y + 0.5) * d == 2.0 * (i as real) + (p as real);
      assert ((2 * i + p) as real) == 2.0 * (i as real) + (p as real);
      QuotientUnique(y + 0.5, (2 * i + p) as real, d);
    }
    FloorOfQuotient(2 * i + p, 2 * p);
  }

  /** The mapped base scale is the nearest one: within half an octave. */
  lemma NearestIsClosest(p: nat, i: nat)
    requires p > 0
    ensures (Nearest(p, i) as real) - 0.5 <= (i as real) / (p as real) < (Nearest(p, i) as real) + 0.5
  {
    RoundFIsNearest((i as real) / (p as real));
  }

  /** The mapping table `which_base_scales_`. */
  function Mapping(p: nat, b: nat): (m: seq<int>)
    requires p > 0 && b > 0
    ensures |m| == NumScale(p, b)
  {
    NumScaleBounds(p, b);
    seq(NumScale(p, b), i requires 0 <= i < NumScale(p, b) => Nearest(p, i))
  }

  /** Every scale maps to a base scale. */
  lemma NearestInRange(p: nat, b: nat, i: nat)
    requires p > 0 && b > 0 && i < NumScale(p, b)
    ensures 0 <= Nearest(p, i) < b
  {
    NearestIsIntegerRounding(p, i);
    var q := (2 * i + p) / (2 * p);
    assert 2 * i + p < 2 * p * b by {
      assert i <= (b - 1) * p;
      assert 2 * ((b - 1) * p) + p < 2 * p * b by {
        assert 2 * p * b == 2 * ((b - 1) * p) + 2 * p;
      }
    }
    assert q * (2 * p) <= 2 * i + p;
    LtFromMul(q, b, 2 * p);
    assert b * (2 * p) == 2 * p * b;
  }

  /** A base scale maps to itself. */
  lemma NearestAtRealScale(p: nat, k: nat)
    requires p > 0
    ensures Nearest(p, k * p) == k
  {
    NearestIsIntegerRounding(p, k * p);
    assert 2 * (k * p) + p == k * (2 * p) + p;
    DivMod(k, p, 2 * p);
  }

  // --------------------------------------------------------------- factors

  /** No base scale is zero, so the rescaling factors are defined. */
  predicate NonZero(base: seq<real>)
  {
    forall k :: 0 <= k < |base| ==> base[k] != 0.0
  }

  /** `rescaling_factors_[i]`: scale `i` over the base scale it maps to. */
  function Factor(base: seq<real>, p: nat, i: nat): real
    requires p > 0 && |base| > 0 && i < NumScale(p, |base|) && NonZero(base)
  {
    NearestInRange(p, |base|, i);
    ScaleAt(base, p, i) / base[Nearest(p, i)]
  }

  /** The factor table `rescaling_factors_`. */
  function Factors(base: seq<real>, p: nat): (f: seq<real>)
    requires p > 0 && |base| > 0 && NonZero(base)
    ensures |f| == NumScale(p, |base|)
  {
    NumScaleBounds(p, |base|);
    seq(NumScale(p, |base|), i requires 0 <= i < NumScale(p, |base|) => Factor(base, p, i))
  }

  /** At a base scale nothing is rescaled. */
  lemma FactorOneAtRealScale(base: seq<real>, p: nat, i: nat)
    requires p > 0 && |base| > 0 && i < NumScale(p, |base|) && NonZero(base) && i % p == 0
    ensures Factor(base, p, i) == 1.0
  {
    var k := i / p;
    assert i == k * p;
    ScaleIndexInRange(p, |base|, i);
    RealScaleIsBase(base, p, k);
    NearestAtRealScale(p, k);
  }

  // -------------------------------------------------------------- counting

  /** `num_top_ = (num / b) * num_scale_`: every image gets every scale. */
  function NumTop(num: nat, p: nat, b: nat): nat
    requires p > 0 && b > 0
  {
    NumScaleBounds(p, b);
    (num / b) * NumScale(p, b)
  }

  /** `index_batch` of output sample `n`: its image's block of input samples, at the mapped base scale. */
  function SourceSample(p: nat, b: nat, n: nat): int
    requires p > 0 && b > 0
  {
    NumScaleBounds(p, b);
    var m := NumScale(p, b);
    (n / m) * b + Nearest(p, n % m)
  }

  /** Every output sample reads an input sample of its own image, inside the batch. */
  lemma SourceSampleInRange(num: nat, p: nat, b: nat, n: nat)
    requires p > 0 && b > 0 && n < NumTop(num, p, b)
    ensures 0 <= SourceSample(p, b, n) < num
    ensures (NumScaleBounds(p, b); var img := n / NumScale(p, b);
      img * b <= SourceSample(p, b, n) < img * b + b && SourceSample(p, b, n) < num)
  {
    NumScaleBounds(p, b);
    var m := NumScale(p, b);
    var img := n / m;
    NearestInRange(p, b, n % m);
    LtFromMul(img, num / b, m);
    MulLe(img + 1, num / b, b);
    assert (num / b) * b <= num;
  }

  // ----------------------------------------------------------------- pixels

  /**
   * Whether pixel `(h, w)` of an output sample, shrunk by `factor`, still
   * falls inside the `height x width` plane (`xp` and `yp` in range).  A
   * zero factor never does: in the source `w / 0` is infinite or not a
   * number, and either fails the test.
   */
  predicate InRange(factor: real, height: nat, width: nat, h: nat, w: nat)
  {
    && factor != 0.0
    && 0.0 <= (w as real) / factor < width as real
    && 0.0 <= (h as real) / factor < height as real
  }

  /** One of the four bilinear neighbours: its position in the plane and its weight, or off the plane. */
  datatype Tap = Inside(pos: nat, weight: real) | Outside

  /** The fractional parts `ux` and `uy` of the resampled position. */
  function Frac(x: real): (u: real)
    ensures 0.0 <= u < 1.0
  {
    x - (x.Floor as real)
  }

  /** `cx[1 - dx]` (or `cy[1 - dy]`): `1 - u` for the neighbour below, `u` for the one above. */
  function Weight1(u: real, d: nat): real
  {
    if d == 0 then 1.0 - u else u
  }

  /** The bilinear weight of neighbour `t = 2 * dx + dy`, whether or not it is on the plane. */
  function BilinearWeight(factor: real, h: nat, w: nat, t: nat): real
    requires factor != 0.0
  {
    Weight1(Frac((w as real) / factor), t / 2) * Weight1(Frac((h as real) / factor), t % 2)
  }

  /** Neighbour `t = 2 * dx + dy` of an in-range pixel (the source visits `dx` outer, `dy` inner). */
  function TapAt(factor: real, height: nat, width: nat, h: nat, w: nat, t: nat): (r: Tap)
    requires InRange(factor, height, width, h, w) && t < 4
    ensures r.Inside? ==> r.pos < height * width && r.weight == BilinearWeight(factor, h, w, t)
  {
    var xi, yi := ((w as real) / factor).Floor, ((h as real) / factor).Floor;
    var dx, dy := t / 2, t % 2;
    if 0 <= xi + dx < width && 0 <= yi + dy < height then
      RowBound(yi + dy, xi + dx, height, width);
      Inside((yi + dy) * width + (xi + dx), BilinearWeight(factor, h, w, t))
    else Outside
  }

  /**
   * Neighbour `(dx, dy)` of grid cell `(xi, yi)` with the weight pairs `cx`
   * and `cy`, as the bilinear loop computes it.
   */
  function GridTap(height: nat, width: nat, xi: int, yi: int, cx: seq<real>, cy: seq<real>, dx: nat, dy: nat): (r: Tap)
    requires |cx| == 2 && |cy| == 2 && dx < 2 && dy < 2
    ensures r.Inside? ==> r.pos < height * width
  {
    if 0 <= xi + dx < width && 0 <= yi + dy < height then
      RowBound(yi + dy, xi + dx, height, width);
      Inside((yi + dy) * width + (xi + dx), cx[1 - dx] * cy[1 - dy])
    else Outside
  }

  /** The weighted input value a neighbour adds to `val`: nothing for one off the plane. */
  function TapValue(plane: seq<real>, tap: Tap): real
    requires tap.Inside? ==> tap.pos < |plane|
  {
    if tap.Inside? then tap.weight * plane[tap.pos] else 0.0
  }

  /** The input index a neighbour records (`origin` is the input sample's first index), -1 off the plane. */
  function TapIndex(origin: int, tap: Tap): real
  {
    if tap.Inside? then (origin + tap.pos) as real else -1.0
  }

  /** The weight a neighbour records, 0 off the plane. */
  function TapWeight(tap: Tap): real
  {
    if tap.Inside? then tap.weight else 0.0
  }

  /** `val` after the first `i` neighbours of the bilinear loop, which visits `dx = i / 2` outer and `dy = i % 2` inner. */
  function GridInterpolated(plane: seq<real>, height: nat, width: nat, xi: int, yi: int, cx: seq<real>, cy: seq<real>, i: nat): real
    requires |plane| == height * width && |cx| == 2 && |cy| == 2 && i <= 4
  {
    if i == 0 then 0.0
    else GridInterpolated(plane, height, width, xi, yi, cx, cy, i - 1) + TapValue(plane, GridTap(height, width, xi, yi, cx, cy, (i - 1) / 2, (i - 1) % 2))
  }

  /** What the bilinear loop records in trace channel `k`: slot `k / 2`'s index if `k` is even, its weight if odd. */
  function GridSlot(origin: int, height: nat, width: nat, xi: int, yi: int, cx: seq<real>, cy: seq<real>, k: nat): real
    requires |cx| == 2 && |cy| == 2 && k < ChannelsTrace
  {
    var tap := GridTap(height, width, xi, yi, cx, cy, (k / 2) / 2, (k / 2) % 2);
    if k % 2 == 0 then TapIndex(origin, tap) else TapWeight(tap)
  }

  /** The eight trace channels the bilinear loop records for one pixel. */
  function GridSlots(origin: int, height: nat, width: nat, xi: int, yi: int, cx: seq<real>, cy: seq<real>): (r: seq<real>)
    requires |cx| == 2 && |cy| == 2
    ensures |r| == ChannelsTrace
    ensures forall k :: 0 <= k < ChannelsTrace ==> r[k] == GridSlot(origin, height, width, xi, yi, cx, cy, k)
  {
    seq(ChannelsTrace, k requires 0 <= k < ChannelsTrace => GridSlot(origin, height, width, xi, yi, cx, cy, k))
  }

  /** The step of the bilinear loop at its `i`-th neighbour: what it adds to `val`. */
  lemma GridStep(plane: seq<real>, height: nat, width: nat, xi: int, yi: int, cx: seq<real>, cy: seq<real>, i: nat)
    requires |plane| == height * width && |cx| == 2 && |cy| == 2 && i < 4
    ensures GridInterpolated(plane, height, width, xi, yi, cx, cy, i + 1)
      == GridInterpolated(plane, height, width, xi, yi, cx, cy, i) + TapValue(plane, GridTap(height, width, xi, yi, cx, cy, i / 2, i % 2))
  {
  }

  /**
   * The two trace stores of the bilinear loop's `i`-th neighbour, for pixel
   * `q` of sample `s` of a trace of `groups` samples, extend the stores of
   * the neighbours before it.
   */
  lemma GridScatterStep(a: seq<real>, groups: nat, len: nat, s: nat, q: nat, origin: int, height: nat, width: nat,
                        xi: int, yi: int, cx: seq<real>, cy: seq<real>, i: nat)
    requires |a| == (groups * ChannelsTrace) * len && s < groups && q < len && |cx| == 2 && |cy| == 2 && i < 4
    ensures Scatter(a, groups, ChannelsTrace, len, s, q, GridSlots(origin, height, width, xi, yi, cx, cy), 2 * i + 2)
      == Scatter(a, groups, ChannelsTrace, len, s, q, GridSlots(origin, height, width, xi, yi, cx, cy), 2 * i)
         [Slot(groups, ChannelsTrace, len, s, 2 * i, q) := TapIndex(origin, GridTap(height, width, xi, yi, cx, cy, i / 2, i % 2))]
         [Slot(groups, ChannelsTrace, len, s, 2 * i + 1, q) := TapWeight(GridTap(height, width, xi, yi, cx, cy, i / 2, i % 2))]
  {
    var slots := GridSlots(origin, height, width, xi, yi, cx, cy);
    assert (2 * i) / 2 == i && (2 * i) % 2 == 0;
    assert (2 * i + 1) / 2 == i && (2 * i + 1) % 2 == 1;
    assert slots[2 * i] == GridSlot(origin, height, width, xi, yi, cx, cy, 2 * i);
    assert slots[2 * i + 1] == GridSlot(origin, height, width, xi, yi, cx, cy, 2 * i + 1);
  }

  /**
   * The bilinear loop's neighbour `(dx, dy)` is neighbour `2 * dx + dy` of
   * the pixel, once `xi`, `yi` are the floors of the resampled position and
   * `cx = [ux, 1 - ux]`, `cy = [uy, 1 - uy]` hold its fractions.
   */
  lemma TapAtNeighbour(factor: real, height: nat, width: nat, h: nat, w: nat, xi: int, yi: int,
                       cx: seq<real>, cy: seq<real>, dx: nat, dy: nat)
    requires InRange(factor, height, width, h, w) && dx < 2 && dy < 2
    requires xi == ((w as real) / factor).Floor && yi == ((h as real) / factor).Floor
    requires cx == [Frac((w as real) / factor), 1.0 - Frac((w as real) / factor)]
    requires cy == [Frac((h as real) / factor), 1.0 - Frac((h as real) / factor)]
    ensures TapAt(factor, height, width, h, w, 2 * dx + dy) == GridTap(height, width, xi, yi, cx, cy, dx, dy)
  {
    var t := 2 * dx + dy;
    assert t / 2 == dx && t % 2 == dy;
    assert cx[1 - dx] == Weight1(Frac((w as real) / factor), dx);
    assert cy[1 - dy] == Weight1(Frac((h as real) / factor), dy);
  }

  /** `val` after the neighbours before `k`. */
  function Interpolated(plane: seq<real>, factor: real, height: nat, width: nat, h: nat, w: nat, k: nat): real
    requires InRange(factor, height, width, h, w) && |plane| == height * width && k <= 4
  {
    if k == 0 then 0.0
    else Interpolated(plane, factor, height, width, h, w, k - 1) + TapValue(plane, TapAt(factor, height, width, h, w, k - 1))
  }

  /**
   * The top value of pixel `(h, w)` of a channel whose input plane is
   * `plane`: a copy at a base scale, the bilinear value inside the plane,
   * and otherwise the zero `caffe_set` left there.
   */
  function TopPixel(isReal: bool, factor: real, height: nat, width: nat, plane: seq<real>, h: nat, w: nat): real
    requires |plane| == height * width && h < height && w < width
  {
    RowBound(h, w, height, width);
    if isReal then plane[h * width + w]
    else if InRange(factor, height, width, h, w) then Interpolated(plane, factor, height, width, h, w, 4)
    else 0.0
  }

  /**
   * Trace slot `t` of pixel `(h, w)`: the input index it reads (`origin` is
   * the index of the input sample's first element), or -1.
   */
  function TraceIndex(isReal: bool, factor: real, height: nat, width: nat, origin: int, h: nat, w: nat, t: nat): real
    requires t < 4
  {
    if isReal then (origin + h * width + w) as real
    else if InRange(factor, height, width, h, w) then TapIndex(origin, TapAt(factor, height, width, h, w, t))
    else -1.0
  }

  /** The weight of trace slot `t`. */
  function TraceWeight(isReal: bool, factor: real, height: nat, width: nat, h: nat, w: nat, t: nat): real
    requires t < 4
  {
    if isReal then 0.25
    else if InRange(factor, height, width, h, w) then TapWeight(TapAt(factor, height, width, h, w, t))
    else 0.0
  }

  /** At a base scale the pixel is copied and its four slots share its input index with weight 0.25 each. */
  lemma RealScaleTrace(factor: real, height: nat, width: nat, plane: seq<real>, origin: int, h: nat, w: nat)
    requires |plane| == height * width && h < height && w < width
    ensures (RowBound(h, w, height, width); TopPixel(true, factor, height, width, plane, h, w) == plane[h * width + w])
    ensures forall t :: 0 <= t < 4 ==> TraceIndex(true, factor, height, width, origin, h, w, t) == (origin + h * width + w) as real
    ensures TraceWeight(true, factor, height, width, h, w, 0) + TraceWeight(true, factor, height, width, h, w, 1)
      + TraceWeight(true, factor, height, width, h, w, 2) + TraceWeight(true, factor, height, width, h, w, 3) == 1.0
  {
    RowBound(h, w, height, width);
  }

  /** A pixel resampled from outside the plane stays zero and all four slots say -1 with weight 0. */
  lemma OutOfRangeTrace(factor: real, height: nat, width: nat, plane: seq<real>, origin: int, h: nat, w: nat, t: nat)
    requires |plane| == height * width && h < height && w < width && t < 4
    requires !InRange(factor, height, width, h, w)
    ensures TopPixel(false, factor, height, width, plane, h, w) == 0.0
    ensures TraceIndex(false, factor, height, width, origin, h, w, t) == -1.0
    ensures TraceWeight(false, factor, height, width, h, w, t) == 0.0
  {
  }

  /** The four bilinear weights of a pixel lie in `[0, 1]` and add up to one. */
  lemma BilinearWeightsPartitionUnity(factor: real, h: nat, w: nat)
    requires factor != 0.0
    ensures forall t :: 0 <= t < 4 ==> 0.0 <= BilinearWeight(factor, h, w, t) <= 1.0
    ensures BilinearWeight(factor, h, w, 0) + BilinearWeight(factor, h, w, 1)
      + BilinearWeight(factor, h, w, 2) + BilinearWeight(factor, h, w, 3) == 1.0
  {
    var ux, uy := Frac((w as real) / factor), Frac((h as real) / factor);
    forall t | 0 <= t < 4
      ensures 0.0 <= BilinearWeight(factor, h, w, t) <= 1.0
    {
      var a, c := Weight1(ux, t / 2), Weight1(uy, t % 2);
      assert BilinearWeight(factor, h, w, t) == a * c;
      assert 0.0 <= a <= 1.0 && 0.0 <= c <= 1.0;
      assert 0.0 <= a * c;
      assert a * c <= 1.0 * c;
    }
    assert (1.0 - ux) * (1.0 - uy) + (1.0 - ux) * uy + ux * (1.0 - uy) + ux * uy == 1.0;
  }

  /**
   * Inside the plane the nearest neighbour below-left (slot 0) is always on
   * the plane, every slot on the plane reads an element of the input
   * sample's first plane, and a slot off the plane says -1 with weight 0.
   */
  lemma InRangeTrace(factor: real, height: nat, width: nat, origin: int, h: nat, w: nat, t: nat)
    requires InRange(factor, height, width, h, w) && t < 4
    ensures TapAt(factor, height, width, h, w, 0).Inside?
    ensures var tap := TapAt(factor, height, width, h, w, t);
      && (tap.Inside? ==>
            && origin <= (TraceIndex(false, factor, height, width, origin, h, w, t)).Floor < origin + height * width
            && TraceWeight(false, factor, height, width, h, w, t) == BilinearWeight(factor, h, w, t))
      && (tap.Outside? ==>
            TraceIndex(false, factor, height, width, origin, h, w, t) == -1.0 && TraceWeight(false, factor, height, width, h, w, t) == 0.0)
  {
    var xp, yp := (w as real) / factor, (h as real) / factor;
    assert 0 <= xp.Floor < width && 0 <= yp.Floor < height;
  }

  // ------------------------------------------------------------- the batch

  /** The dimensions of the bottom blob and the two parameters. */
  datatype Dims = Dims(num: nat, channels: nat, height: nat, width: nat, p: nat, base: seq<real>)

  /** The configuration and the parsed base scales allow a forward pass. */
  predicate WellFormed(d: Dims)
  {
    d.p > 0 && |d.base| > 0 && NonZero(d.base)
  }

  /** The output samples. */
  function Tops(d: Dims): nat
    requires WellFormed(d)
  {
    NumTop(d.num, d.p, |d.base|)
  }

  /** Plane `c` of input sample `s`. */
  function InputPlane(d: Dims, bottom: seq<real>, s: nat, c: nat): (r: seq<real>)
    requires |bottom| == (d.num * d.channels) * (d.height * d.width) && s < d.num && c < d.channels
    ensures |r| == d.height * d.width
  {
    RowBound(s, c, d.num, d.channels);
    Row(bottom, d.num * d.channels, d.height * d.width, s * d.channels + c)
  }

  /** Whether output sample `n` sits at a base scale. */
  predicate RealSample(d: Dims, n: nat)
    requires WellFormed(d)
  {
    NumScaleBounds(d.p, |d.base|);
    (n % NumScale(d.p, |d.base|)) % d.p == 0
  }

  /** The rescaling factor of output sample `n`. */
  function SampleFactor(d: Dims, n: nat): real
    requires WellFormed(d)
  {
    NumScaleBounds(d.p, |d.base|);
    Factor(d.base, d.p, n % NumScale(d.p, |d.base|))
  }

  /** The top plane of a channel whose input plane is `plane`, pixel by pixel. */
  function ResampledPlane(isReal: bool, factor: real, height: nat, width: nat, plane: seq<real>): (r: seq<real>)
    requires |plane| == height * width
    ensures |r| == height * width
  {
    seq(height * width, q requires 0 <= q < height * width =>
      DivBound(q, height, width);
      TopPixel(isReal, factor, height, width, plane, q / width, q % width))
  }

  /** Trace channel `k` of pixel `(h, w)`: slot `k / 2`, its index if `k` is even and its weight if odd. */
  function TraceAt(isReal: bool, factor: real, height: nat, width: nat, origin: int, h: nat, w: nat, k: nat): real
    requires k < ChannelsTrace
  {
    if k % 2 == 0 then TraceIndex(isReal, factor, height, width, origin, h, w, k / 2)
    else TraceWeight(isReal, factor, height, width, h, w, k / 2)
  }

  /** Trace channels `2 t` and `2 t + 1` are slot `t`'s index and weight. */
  lemma TraceAtSlot(isReal: bool, factor: real, height: nat, width: nat, origin: int, h: nat, w: nat, t: nat)
    requires t < ChannelsTrace / 2
    ensures TraceAt(isReal, factor, height, width, origin, h, w, 2 * t) == TraceIndex(isReal, factor, height, width, origin, h, w, t)
    ensures TraceAt(isReal, factor, height, width, origin, h, w, 2 * t + 1) == TraceWeight(isReal, factor, height, width, h, w, t)
  {
    assert (2 * t) % 2 == 0 && (2 * t) / 2 == t;
    assert (2 * t + 1) % 2 == 1 && (2 * t + 1) / 2 == t;
  }

  /** The eight trace channels of pixel `(h, w)`. */
  function PixelTrace(isReal: bool, factor: real, height: nat, width: nat, origin: int, h: nat, w: nat): (r: seq<real>)
    ensures |r| == ChannelsTrace
    ensures forall k :: 0 <= k < ChannelsTrace ==> r[k] == TraceAt(isReal, factor, height, width, origin, h, w, k)
  {
    seq(ChannelsTrace, k requires 0 <= k < ChannelsTrace => TraceAt(isReal, factor, height, width, origin, h, w, k))
  }

  /** Four slots that all hold `index` and `weight`. */
  function SlotPairs(index: real, weight: real): (r: seq<real>)
    ensures |r| == ChannelsTrace
    ensures forall k :: 0 <= k < ChannelsTrace ==> r[k] == if k % 2 == 0 then index else weight
  {
    seq(ChannelsTrace, k requires 0 <= k < ChannelsTrace => if k % 2 == 0 then index else weight)
  }

  /** Slot `t` of `SlotPairs(index, weight)`: the index in plane `2 t`, the weight in plane `2 t + 1`. */
  lemma SlotPairsAt(index: real, weight: real, t: nat)
    requires t < ChannelsTrace / 2
    ensures SlotPairs(index, weight)[2 * t] == index && SlotPairs(index, weight)[2 * t + 1] == weight
  {
    assert (2 * t) % 2 == 0 && (2 * t + 1) % 2 == 1;
  }

  /** At a base scale all four slots hold the pixel's own input index with weight 0.25. */
  lemma RealPixelTrace(factor: real, height: nat, width: nat, origin: int, h: nat, w: nat)
    ensures PixelTrace(true, factor, height, width, origin, h, w) == SlotPairs((origin + h * width + w) as real, 0.25)
  {
    assert forall k :: 0 <= k < ChannelsTrace ==>
      PixelTrace(true, factor, height, width, origin, h, w)[k] == SlotPairs((origin + h * width + w) as real, 0.25)[k];
  }

  /** A pixel resampled from outside the plane has all four slots -1 with weight 0. */
  lemma OutOfRangePixelTrace(factor: real, height: nat, width: nat, origin: int, h: nat, w: nat)
    requires !InRange(factor, height, width, h, w)
    ensures PixelTrace(false, factor, height, width, origin, h, w) == SlotPairs(-1.0, 0.0)
  {
    assert forall k :: 0 <= k < ChannelsTrace ==>
      PixelTrace(false, factor, height, width, origin, h, w)[k] == SlotPairs(-1.0, 0.0)[k];
  }

  /** Neighbour `t` of the pixel is the bilinear loop's neighbour `(t / 2, t % 2)`. */
  lemma TapOnGrid(factor: real, height: nat, width: nat, h: nat, w: nat,
                  xi: int, yi: int, cx: seq<real>, cy: seq<real>, t: nat)
    requires InRange(factor, height, width, h, w)
    requires xi == ((w as real) / factor).Floor && yi == ((h as real) / factor).Floor
    requires cx == [Frac((w as real) / factor), 1.0 - Frac((w as real) / factor)]
    requires cy == [Frac((h as real) / factor), 1.0 - Frac((h as real) / factor)]
    requires t < 4
    ensures TapAt(factor, height, width, h, w, t) == GridTap(height, width, xi, yi, cx, cy, t / 2, t % 2)
  {
    assert 2 * (t / 2) + t % 2 == t;
    TapAtNeighbour(factor, height, width, h, w, xi, yi, cx, cy, t / 2, t % 2);
  }

  /** The bilinear loop's running sum after `i` neighbours is the pixel's. */
  lemma {:induction false} ValueOnGrid(plane: seq<real>, factor: real, height: nat, width: nat, h: nat, w: nat,
                                       xi: int, yi: int, cx: seq<real>, cy: seq<real>, i: nat)
    requires InRange(factor, height, width, h, w)
    requires xi == ((w as real) / factor).Floor && yi == ((h as real) / factor).Floor
    requires cx == [Frac((w as real) / factor), 1.0 - Frac((w as real) / factor)]
    requires cy == [Frac((h as real) / factor), 1.0 - Frac((h as real) / factor)]
    requires |plane| == height * width && i <= 4
    ensures Interpolated(plane, factor, height, width, h, w, i) == GridInterpolated(plane, height, width, xi, yi, cx, cy, i)
  {
    if i > 0 {
      ValueOnGrid(plane, factor, height, width, h, w, xi, yi, cx, cy, i - 1);
      TapOnGrid(factor, height, width, h, w, xi, yi, cx, cy, i - 1);
    }
  }

  /** Trace channel `k` the bilinear loop records is the pixel's. */
  lemma SlotOnGrid(factor: real, height: nat, width: nat, origin: int, h: nat, w: nat,
                   xi: int, yi: int, cx: seq<real>, cy: seq<real>, k: nat)
    requires InRange(factor, height, width, h, w)
    requires xi == ((w as real) / factor).Floor && yi == ((h as real) / factor).Floor
    requires cx == [Frac((w as real) / factor), 1.0 - Frac((w as real) / factor)]
    requires cy == [Frac((h as real) / factor), 1.0 - Frac((h as real) / factor)]
    requires k < ChannelsTrace
    ensures TraceAt(false, factor, height, width, origin, h, w, k) == GridSlot(origin, height, width, xi, yi, cx, cy, k)
  {
    TapOnGrid(factor, height, width, h, w, xi, yi, cx, cy, k / 2);
  }

  /**
   * The bilinear loop computes the pixel's value and trace: with `xi`, `yi`
   * the floors of the resampled position and `cx`, `cy` the weight pairs of
   * its fractions, its sum is the interpolated value and its slots are the
   * pixel's trace.
   */
  lemma InterpolatedOnGrid(plane: seq<real>, factor: real, height: nat, width: nat, origin: int, h: nat, w: nat,
                           xi: int, yi: int, cx: seq<real>, cy: seq<real>)
    requires InRange(factor, height, width, h, w)
    requires xi == ((w as real) / factor).Floor && yi == ((h as real) / factor).Floor
    requires cx == [Frac((w as real) / factor), 1.0 - Frac((w as real) / factor)]
    requires cy == [Frac((h as real) / factor), 1.0 - Frac((h as real) / factor)]
    requires |plane| == height * width
    ensures Interpolated(plane, factor, height, width, h, w, 4) == GridInterpolated(plane, height, width, xi, yi, cx, cy, 4)
    ensures PixelTrace(false, factor, height, width, origin, h, w) == GridSlots(origin, height, width, xi, yi, cx, cy)
  {
    ValueOnGrid(plane, factor, height, width, h, w, xi, yi, cx, cy, 4);
    forall k | 0 <= k < ChannelsTrace
      ensures PixelTrace(false, factor, height, width, origin, h, w)[k] == GridSlots(origin, height, width, xi, yi, cx, cy)[k]
    {
      SlotOnGrid(factor, height, width, origin, h, w, xi, yi, cx, cy, k);
    }
  }

  /** Trace plane `k` of an output sample whose input sample starts at `origin`. */
  function TraceSlots(isReal: bool, factor: real, height: nat, width: nat, origin: int, k: nat): (r: seq<real>)
    requires k < ChannelsTrace
    ensures |r| == height * width
  {
    seq(height * width, q requires 0 <= q < height * width =>
      DivBound(q, height, width);
      TraceAt(isReal, factor, height, width, origin, q / width, q % width, k))
  }

  /** The eight trace planes of an output sample whose input sample starts at `origin`. */
  function TracePlanes(isReal: bool, factor: real, height: nat, width: nat, origin: int): (r: seq<seq<real>>)
    ensures |r| == ChannelsTrace
    ensures forall k :: 0 <= k < ChannelsTrace ==> r[k] == TraceSlots(isReal, factor, height, width, origin, k)
    ensures forall k :: 0 <= k < ChannelsTrace ==> |r[k]| == height * width
  {
    seq(ChannelsTrace, k requires 0 <= k < ChannelsTrace => TraceSlots(isReal, factor, height, width, origin, k))
  }

  /** Pixel `q` of the trace planes is that pixel's trace. */
  lemma TracePlanesAt(isReal: bool, factor: real, height: nat, width: nat, origin: int, h: nat, w: nat)
    requires h < height && w < width
    ensures h * width + w < height * width
    ensures Across(TracePlanes(isReal, factor, height, width, origin), h * width + w)
      == PixelTrace(isReal, factor, height, width, origin, h, w)
  {
    RowBound(h, w, height, width);
    DivMod(h, w, width);
    var q := h * width + w;
    forall k | 0 <= k < ChannelsTrace
      ensures Across(TracePlanes(isReal, factor, height, width, origin), q)[k] == PixelTrace(isReal, factor, height, width, origin, h, w)[k]
    {
      assert TraceSlots(isReal, factor, height, width, origin, k)[q] == TraceAt(isReal, factor, height, width, origin, h, w, k);
    }
  }

  /** Pixel `q` of the resampled plane is that pixel's top value. */
  lemma ResampledPlaneAt(isReal: bool, factor: real, height: nat, width: nat, plane: seq<real>, h: nat, w: nat)
    requires |plane| == height * width && h < height && w < width
    ensures h * width + w < height * width
    ensures ResampledPlane(isReal, factor, height, width, plane)[h * width + w] == TopPixel(isReal, factor, height, width, plane, h, w)
  {
    RowBound(h, w, height, width);
    DivMod(h, w, width);
  }

  /** At a base scale the resampled plane is the input plane itself. */
  lemma RealResampleIsCopy(factor: real, height: nat, width: nat, plane: seq<real>)
    requires |plane| == height * width
    ensures ResampledPlane(true, factor, height, width, plane) == plane
  {
    var top := ResampledPlane(true, factor, height, width, plane);
    forall q | 0 <= q < height * width
      ensures top[q] == plane[q]
    {
      DivBound(q, height, width);
      assert q == (q / width) * width + q % width;
    }
  }

  /** Plane `c` of output sample `n` after a forward pass. */
  function TopPlane(d: Dims, bottom: seq<real>, n: nat, c: nat): (r: seq<real>)
    requires WellFormed(d) && |bottom| == (d.num * d.channels) * (d.height * d.width)
    requires n < Tops(d) && c < d.channels
    ensures |r| == d.height * d.width
  {
    SourceSampleInRange(d.num, d.p, |d.base|, n);
    var plane := InputPlane(d, bottom, SourceSample(d.p, |d.base|, n), c);
    ResampledPlane(RealSample(d, n), SampleFactor(d, n), d.height, d.width, plane)
  }

  /** The index of the first element of the input sample that output sample `n` reads. */
  function Origin(d: Dims, n: nat): int
    requires WellFormed(d)
  {
    SourceSample(d.p, |d.base|, n) * d.channels * d.height * d.width
  }

  /** Trace plane `k` of output sample `n` after a forward pass. */
  function TracePlane(d: Dims, n: nat, k: nat): (r: seq<real>)
    requires WellFormed(d) && k < ChannelsTrace
    ensures |r| == d.height * d.width
  {
    TraceSlots(RealSample(d, n), SampleFactor(d, n), d.height, d.width, Origin(d, n), k)
  }
}
