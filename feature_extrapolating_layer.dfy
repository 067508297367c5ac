/**
 * The feature-extrapolating layer: set-up, the tables `Reshape` builds
 * (scales, real-scale flags, scale mapping, rescaling factors) and the
 * forward pass that fills the output blob and the trace blob.  The tables
 * and the two blobs are arrays the layer reallocates on every `Reshape`;
 * the output blob is the caller's array.
 */
module FeatureExtrapolating {
  import opened Wrappers
  import opened Flat
  import opened Vectors
  import opened Blobs
  import opened Blas
  import opened FeatureExtrapolatingSpec

  /** `feature_extrapolating_param`: scales per octave and base scales (the scale string is parsed by `Reshape`). */
  datatype Param = Param(numPerOctave: int, numScaleBase: nat)

  /** The configuration set-up accepts. */
  datatype Octaves = Octaves(perOctave: nat, baseScales: nat)

  /** Why set-up or `Reshape` stops. */
  datatype Error =
    | NoScalePerOctave
    | NoBaseScale

  /** `LayerSetUp`: the only check is that an octave holds at least one scale. */
  function SetUp(param: Param): (r: Result<Octaves, Error>)
    ensures r.Ok? <==> param.numPerOctave > 0
    ensures r.Err? ==> r.error == NoScalePerOctave
    ensures r.Ok? ==> r.value.perOctave == param.numPerOctave && r.value.baseScales == param.numScaleBase
  {
    if param.numPerOctave <= 0 then Err(NoScalePerOctave)
    else Ok(Octaves(param.numPerOctave, param.numScaleBase))
  }

  /** At a base scale an output plane is the input plane of the same image at that base scale. */
  lemma TopPlaneAtRealScale(d: Dims, bottom: seq<real>, n: nat, c: nat)
    requires WellFormed(d) && |bottom| == (d.num * d.channels) * (d.height * d.width)
    requires n < Tops(d) && c < d.channels && RealSample(d, n)
    ensures (NumScaleBounds(d.p, |d.base|); SourceSampleInRange(d.num, d.p, |d.base|, n);
      var m := NumScale(d.p, |d.base|);
      && SourceSample(d.p, |d.base|, n) == (n / m) * |d.base| + (n % m) / d.p
      && TopPlane(d, bottom, n, c) == InputPlane(d, bottom, SourceSample(d.p, |d.base|, n), c))
  {
    NumScaleBounds(d.p, |d.base|);
    SourceSampleInRange(d.num, d.p, |d.base|, n);
    var m := NumScale(d.p, |d.base|);
    var i := n % m;
    assert i == (i / d.p) * d.p;
    NearestAtRealScale(d.p, i / d.p);
    RealResampleIsCopy(SampleFactor(d, n), d.height, d.width, InputPlane(d, bottom, SourceSample(d.p, |d.base|, n), c));
  }

  /**
   * The state of the bilinear branch's neighbour loops for pixel `q` of
   * sample `s` after the first `i` neighbours: `val` is the partial
   * interpolated value and, for the first channel, the trace `t` holds the
   * first `2 * i` of the pixel's slots over `t0`; for the other channels
   * the trace is untouched.
   */
  ghost predicate GridProgress(t0: seq<real>, t: seq<real>, groups: nat, height: nat, width: nat, s: nat, q: nat,
                               plane: seq<real>, origin: int, xi: int, yi: int, cx: seq<real>, cy: seq<real>, c: nat, i: nat, val: real)
  {
    && |t0| == |t| == (groups * ChannelsTrace) * (height * width) && s < groups && q < height * width
    && |plane| == height * width && |cx| == 2 && |cy| == 2 && i <= 4
    && val == GridInterpolated(plane, height, width, xi, yi, cx, cy, i)
    && (c == 0 ==> t == Scatter(t0, groups, ChannelsTrace, height * width, s, q, GridSlots(origin, height, width, xi, yi, cx, cy), 2 * i))
    && (c != 0 ==> t == t0)
  }

  /**
   * Neighbour `i` done: when `val` has gained the neighbour's tap value and,
   * for the first channel, the trace its two slots, the neighbour loops have
   * advanced by one neighbour.
   */
  lemma GridAdvance(t0: seq<real>, t1: seq<real>, t2: seq<real>, groups: nat, height: nat, width: nat, s: nat, q: nat,
                    plane: seq<real>, origin: int, xi: int, yi: int, cx: seq<real>, cy: seq<real>, c: nat, i: nat, val: real, r: real)
    requires i < 4 && GridProgress(t0, t1, groups, height, width, s, q, plane, origin, xi, yi, cx, cy, c, i, val)
    requires r == val + TapValue(plane, GridTap(height, width, xi, yi, cx, cy, i / 2, i % 2))
    requires c == 0 ==> t2 == t1
      [Slot(groups, ChannelsTrace, height * width, s, 2 * i, q) := TapIndex(origin, GridTap(height, width, xi, yi, cx, cy, i / 2, i % 2))]
      [Slot(groups, ChannelsTrace, height * width, s, 2 * i + 1, q) := TapWeight(GridTap(height, width, xi, yi, cx, cy, i / 2, i % 2))]
    requires c != 0 ==> t2 == t1
    ensures GridProgress(t0, t2, groups, height, width, s, q, plane, origin, xi, yi, cx, cy, c, i + 1, r)
  {
    GridStep(plane, height, width, xi, yi, cx, cy, i);
    GridScatterStep(t0, groups, height * width, s, q, origin, height, width, xi, yi, cx, cy, i);
  }

  /**
   * The state of the `h` and `w` loops over channel `c` of output sample
   * `n` after the first `k` pixels of the plane: `top` is `top0` with those
   * pixels of `want` stored and, for the first channel, `trace` is `trace0`
   * with those pixels' slots of `planes` stored; for the other channels the
   * trace is untouched.
   */
  ghost predicate PlaneProgress(top0: seq<real>, top: seq<real>, trace0: seq<real>, trace: seq<real>, tops: nat, chans: nat, hw: nat,
                                n: nat, c: nat, want: seq<real>, planes: seq<seq<real>>, k: nat)
  {
    && |top0| == |top| == (tops * chans) * hw && n < tops && c < chans && |want| == hw && k <= hw
    && |trace0| == |trace| == (tops * ChannelsTrace) * hw && |planes| == ChannelsTrace
    && (forall j :: 0 <= j < ChannelsTrace ==> |planes[j]| == hw)
    && top == Overwrite(top0, tops, chans, hw, n, c, want, k)
    && (c == 0 ==> trace == Sweep(trace0, tops, ChannelsTrace, hw, n, planes, k))
    && (c != 0 ==> trace == trace0)
  }

  /**
   * The state of the `c` loop of output sample `n` after the first `c`
   * channels: their planes of `top` are `want`, the later planes are still
   * zero, the trace of the sample is `planes` once the first channel is
   * done, and every other sample of both blobs is as in `top0` and `trace0`.
   */
  ghost predicate ChannelsProgress(top0: seq<real>, top: seq<real>, trace0: seq<real>, trace: seq<real>, tops: nat, chans: nat, hw: nat,
                                   n: nat, want: seq<seq<real>>, planes: seq<seq<real>>, c: nat)
  {
    && |top0| == |top| == (tops * chans) * hw && |trace0| == |trace| == (tops * ChannelsTrace) * hw
    && n < tops && c <= chans && |want| == chans && |planes| == ChannelsTrace
    && (forall l :: 0 <= l < c ==> Cell(top, tops, chans, hw, n, l) == want[l])
    && (forall l :: c <= l < chans ==> Cell(top, tops, chans, hw, n, l) == Zeros(hw))
    && (forall m, l :: 0 <= m < tops && 0 <= l < chans && m != n ==> Cell(top, tops, chans, hw, m, l) == Cell(top0, tops, chans, hw, m, l))
    && (c > 0 ==> forall k :: 0 <= k < ChannelsTrace ==> Cell(trace, tops, ChannelsTrace, hw, n, k) == planes[k])
    && (forall m, l :: 0 <= m < tops && 0 <= l < ChannelsTrace && m != n ==>
          Cell(trace, tops, ChannelsTrace, hw, m, l) == Cell(trace0, tops, ChannelsTrace, hw, m, l))
    && (c == 0 ==> trace == trace0)
  }

  /**
   * Channel `c` done: when its plane of `top` has been overwritten with
   * `want[c]` and, for the first channel, the sample's trace with `planes`,
   * the `c` loop has advanced by one channel.
   */
  lemma ChannelsAdvance(top0: seq<real>, top1: seq<real>, top2: seq<real>, trace0: seq<real>, trace1: seq<real>, trace2: seq<real>,
                        tops: nat, chans: nat, hw: nat, n: nat, want: seq<seq<real>>, planes: seq<seq<real>>, c: nat)
    requires c < chans && ChannelsProgress(top0, top1, trace0, trace1, tops, chans, hw, n, want, planes, c)
    requires |want[c]| == hw && forall k :: 0 <= k < ChannelsTrace ==> |planes[k]| == hw
    requires top2 == Overwrite(top1, tops, chans, hw, n, c, want[c], hw)
    requires c == 0 ==> trace2 == Sweep(trace1, tops, ChannelsTrace, hw, n, planes, hw)
    requires c != 0 ==> trace2 == trace1
    ensures ChannelsProgress(top0, top2, trace0, trace2, tops, chans, hw, n, want, planes, c + 1)
  {
    OverwriteCells(top1, tops, chans, hw, n, c, want[c]);
    if c == 0 {
      SweepCells(trace1, tops, ChannelsTrace, hw, n, planes);
    }
  }

  /**
   * Output sample `n` done: its planes of `top` are the resampled input
   * planes, its trace planes (when there are channels) are those of the
   * specification, and every other sample of both blobs is as in `top0`
   * and `trace0`.
   */
  ghost predicate SampleDone(d: Dims, bottom: seq<real>, top0: seq<real>, top: seq<real>, trace0: seq<real>, trace: seq<real>, n: nat)
  {
    && WellFormed(d) && |bottom| == (d.num * d.channels) * (d.height * d.width) && n < Tops(d)
    && |top0| == |top| == (Tops(d) * d.channels) * (d.height * d.width)
    && |trace0| == |trace| == (Tops(d) * ChannelsTrace) * (d.height * d.width)
    && (forall c :: 0 <= c < d.channels ==>
          Cell(top, Tops(d), d.channels, d.height * d.width, n, c) == TopPlane(d, bottom, n, c))
    && (forall m, l :: 0 <= m < Tops(d) && 0 <= l < d.channels && m != n ==>
          Cell(top, Tops(d), d.channels, d.height * d.width, m, l) == Cell(top0, Tops(d), d.channels, d.height * d.width, m, l))
    && (d.channels > 0 ==> forall k :: 0 <= k < ChannelsTrace ==>
          Cell(trace, Tops(d), ChannelsTrace, d.height * d.width, n, k) == TracePlane(d, n, k))
    && (forall m, l :: 0 <= m < Tops(d) && 0 <= l < ChannelsTrace && m != n ==>
          Cell(trace, Tops(d), ChannelsTrace, d.height * d.width, m, l) == Cell(trace0, Tops(d), ChannelsTrace, d.height * d.width, m, l))
    && (d.channels == 0 ==> trace == trace0)
  }

  /** The `c` loop of sample `n` done, with `want` the resampled planes and `planes` the trace planes, is the sample done. */
  lemma ChannelsDone(d: Dims, bottom: seq<real>, top0: seq<real>, top: seq<real>, trace0: seq<real>, trace: seq<real>, n: nat,
                     want: seq<seq<real>>, planes: seq<seq<real>>)
    requires WellFormed(d) && |bottom| == (d.num * d.channels) * (d.height * d.width) && n < Tops(d)
    requires ChannelsProgress(top0, top, trace0, trace, Tops(d), d.channels, d.height * d.width, n, want, planes, d.channels)
    requires forall l :: 0 <= l < d.channels ==> want[l] == TopPlane(d, bottom, n, l)
    requires forall k :: 0 <= k < ChannelsTrace ==> planes[k] == TracePlane(d, n, k)
    ensures SampleDone(d, bottom, top0, top, trace0, trace, n)
  {
  }

  /**
   * The state of the `n` loop of the forward pass after the first `n`
   * samples: their planes of `top` are the resampled input planes and
   * their trace planes (when there are channels) those of the
   * specification; the later samples of `top` are still zero.
   */
  ghost predicate SamplesProgress(d: Dims, bottom: seq<real>, top: seq<real>, trace0: seq<real>, trace: seq<real>, n: nat)
  {
    && WellFormed(d) && |bottom| == (d.num * d.channels) * (d.height * d.width) && n <= Tops(d)
    && |top| == (Tops(d) * d.channels) * (d.height * d.width)
    && |trace0| == |trace| == (Tops(d) * ChannelsTrace) * (d.height * d.width)
    && (forall m, c :: 0 <= m < n && 0 <= c < d.channels ==>
          Cell(top, Tops(d), d.channels, d.height * d.width, m, c) == TopPlane(d, bottom, m, c))
    && (forall m, c :: n <= m < Tops(d) && 0 <= c < d.channels ==>
          Cell(top, Tops(d), d.channels, d.height * d.width, m, c) == Zeros(d.height * d.width))
    && (d.channels > 0 ==> forall m, k :: 0 <= m < n && 0 <= k < ChannelsTrace ==>
          Cell(trace, Tops(d), ChannelsTrace, d.height * d.width, m, k) == TracePlane(d, m, k))
    && (d.channels == 0 ==> trace == trace0)
  }

  /** A cleared output blob is the state before the first sample. */
  lemma SamplesStart(d: Dims, bottom: seq<real>, top: seq<real>, trace: seq<real>)
    requires WellFormed(d) && |bottom| == (d.num * d.channels) * (d.height * d.width)
    requires |top| == (Tops(d) * d.channels) * (d.height * d.width)
    requires |trace| == (Tops(d) * ChannelsTrace) * (d.height * d.width)
    requires forall q :: 0 <= q < |top| ==> top[q] == 0.0
    ensures SamplesProgress(d, bottom, top, trace, trace, 0)
  {
    forall m, c | 0 <= m < Tops(d) && 0 <= c < d.channels
      ensures Cell(top, Tops(d), d.channels, d.height * d.width, m, c) == Zeros(d.height * d.width)
    {
      var cell := Cell(top, Tops(d), d.channels, d.height * d.width, m, c);
      forall q | 0 <= q < d.height * d.width
        ensures cell[q] == 0.0
      {
        CellAt(top, Tops(d), d.channels, d.height * d.width, m, c, q);
      }
    }
  }

  /** Sample `n` done is one more turn of the `n` loop. */
  lemma SamplesAdvance(d: Dims, bottom: seq<real>, top1: seq<real>, top2: seq<real>, trace0: seq<real>, trace1: seq<real>,
                       trace2: seq<real>, n: nat)
    requires SamplesProgress(d, bottom, top1, trace0, trace1, n) && SampleDone(d, bottom, top1, top2, trace1, trace2, n)
    ensures SamplesProgress(d, bottom, top2, trace0, trace2, n + 1)
  {
  }

  class FeatureExtrapolatingLayer {
    /** `num_per_octave_`, `num_scale_base_` and `num_scale_`, fixed by set-up. */
    const numPerOctave: nat
    const numScaleBase: nat
    const numScale: int

    /** The bottom blob's dimensions, and `num_image_` and `num_top_`. */
    var num: nat
    var channels: nat
    var height: nat
    var width: nat
    var numImage: nat
    var numTop: nat

    /**
     * `scales_base_`, `scales_`, `is_real_scales_`, `which_base_scales_` and
     * `rescaling_factors_`: filled in place by `Reshape`, read-only afterwards.
     */
    var scalesBase: seq<real>
    var scales: seq<real>
    var isRealScales: seq<int>
    var whichBaseScales: seq<int>
    var rescalingFactors: seq<real>
    /** `trace_`: `num_top_ x 8 x height x width`. */
    var trace: array<real>

    /** The end of `LayerSetUp`: the configuration and `num_scale_`; every table is still empty. */
    constructor (c: Octaves)
      requires c.perOctave > 0
      ensures numPerOctave == c.perOctave && numScaleBase == c.baseScales
      ensures numScale == NumScale(c.perOctave, c.baseScales)
    {
      numPerOctave, numScaleBase := c.perOctave, c.baseScales;
      numScale := (c.baseScales - 1) * c.perOctave + 1;
      num, channels, height, width, numImage, numTop := 0, 0, 0, 0, 0, 0;
      scalesBase, scales, isRealScales, whichBaseScales, rescalingFactors := [], [], [], [], [];
      trace := new real[0];
    }

    /** The dimensions and parameters the specification functions take. */
    function Layout(): Dims
      reads this
    {
      Dims(num, channels, height, width, numPerOctave, scalesBase)
    }

    /** What a successful `Reshape` leaves: the tables the specification defines, the counts and the trace buffer. */
    predicate Reshaped()
      reads this
    {
      && WellFormed(Layout()) && numScaleBase == |scalesBase|
      && numScale == NumScale(numPerOctave, numScaleBase)
      && scales == Scales(scalesBase, numPerOctave)
      && isRealScales == Flags(numPerOctave, numScaleBase)
      && whichBaseScales == Mapping(numPerOctave, numScaleBase)
      && rescalingFactors == Factors(scalesBase, numPerOctave)
      && numImage == num / numScaleBase && numTop == numImage * numScale && numTop == Tops(Layout())
      && trace.Length == (numTop * ChannelsTrace) * (height * width)
    }

    /**
     * `Reshape`: records the bottom dimensions, fills the tables and sizes the
     * output and trace blobs.  `parsed` is what `std::stod` reads from the
     * scale string.  Without base scales the source divides by zero.
     */
    method Reshape(bottom: Shape, parsed: seq<real>) returns (r: Result<Shape, Error>)
      requires numPerOctave > 0 && numScale == NumScale(numPerOctave, numScaleBase)
      requires |parsed| == numScaleBase && NonZero(parsed)
      modifies this
      ensures num == bottom.num && channels == bottom.channels && height == bottom.height && width == bottom.width
      ensures r.Err? <==> numScaleBase == 0
      ensures r.Err? ==> r.error == NoBaseScale
      ensures r.Ok? ==> Reshaped() && scalesBase == parsed
      ensures r.Ok? ==> r.value == Shape(numTop, channels, height, width) && numTop == (num / numScaleBase) * numScale
      ensures r.Ok? ==> fresh(trace)
    {
      SetDims(bottom);
      if numScaleBase == 0 {
        return Err(NoBaseScale);
      }
      var image, tops, tr, base, s, flags, mapping, factors := Plan(bottom, numPerOctave, numScale, parsed);
      SetCounts(image, tops, tr);
      SetTables(base, s, flags, mapping, factors);
      r := Ok(Shape(tops, bottom.channels, bottom.height, bottom.width));
    }

    /** `num_`, `channels_`, `height_` and `width_` from the bottom blob. */
    method SetDims(bottom: Shape)
      modifies this`num, this`channels, this`height, this`width
      ensures num == bottom.num && channels == bottom.channels && height == bottom.height && width == bottom.width
    {
      num, channels, height, width := bottom.num, bottom.channels, bottom.height, bottom.width;
    }

    /** `num_image_`, `num_top_` and the trace buffer. */
    method SetCounts(image: nat, tops: nat, tr: array<real>)
      modifies this`numImage, this`numTop, this`trace
      ensures numImage == image && numTop == tops && trace == tr
    {
      numImage, numTop, trace := image, tops, tr;
    }

    /** The five tables. */
    method SetTables(base: seq<real>, s: seq<real>, flags: seq<int>, mapping: seq<int>, factors: seq<real>)
      modifies this`scalesBase, this`scales, this`isRealScales, this`whichBaseScales, this`rescalingFactors
      ensures scalesBase == base && scales == s && isRealScales == flags && whichBaseScales == mapping && rescalingFactors == factors
    {
      scalesBase, scales, isRealScales, whichBaseScales, rescalingFactors := base, s, flags, mapping, factors;
    }

    /** The body of `Reshape` once the base scales are known: the counts, the trace buffer and the tables. */
    static method Plan(bottom: Shape, p: nat, m: int, parsed: seq<real>)
      returns (image: nat, tops: nat, tr: array<real>, base: seq<real>, s: seq<real>, flags: seq<int>, mapping: seq<int>, factors: seq<real>)
      requires p > 0 && |parsed| > 0 && NonZero(parsed) && m == NumScale(p, |parsed|)
      ensures base == parsed && fresh(tr)
      ensures image == bottom.num / |parsed| && tops == image * m && tops == NumTop(bottom.num, p, |parsed|)
      ensures tr.Length == (tops * ChannelsTrace) * (bottom.height * bottom.width)
      ensures s == Scales(parsed, p) && flags == Flags(p, |parsed|) && mapping == Mapping(p, |parsed|) && factors == Factors(parsed, p)
    {
      MulLe(0, |parsed| - 1, p);
      var scaleCount: nat := m;
      image := bottom.num / |parsed|;
      tops := image * scaleCount;
      tr := NewTrace(tops, bottom.height, bottom.width);
      base, s, flags, mapping, factors := BuildTables(p, |parsed|, parsed);
    }

    /** `trace_.Reshape(num_top_, channels_trace_, height_, width_)`: a buffer of every trace plane of every output sample. */
    static method NewTrace(tops: nat, height: nat, width: nat) returns (tr: array<real>)
      ensures fresh(tr) && tr.Length == (tops * ChannelsTrace) * (height * width)
    {
      var planes: nat := tops * ChannelsTrace;
      var hw: nat := height * width;
      tr := new real[planes * hw];
    }

    /** The table loops of `Reshape`, in the source's order, each filling a new array; the filled tables are returned. */
    static method BuildTables(p: nat, b: nat, parsed: seq<real>)
      returns (base: seq<real>, s: seq<real>, flags: seq<int>, mapping: seq<int>, factors: seq<real>)
      requires p > 0 && b > 0 && |parsed| == b && NonZero(parsed)
      ensures base == parsed && s == Scales(parsed, p)
      ensures flags == Flags(p, b) && mapping == Mapping(p, b) && factors == Factors(parsed, p)
    {
      NumScaleBounds(p, b);
      var scalesBase := new real[b];
      CopyScales(parsed, scalesBase);
      var scales := new real[NumScale(p, b)];
      FillScales(scalesBase, p, scales);
      var isReal := new int[NumScale(p, b)];
      FillFlags(p, b, isReal);
      var which := new int[NumScale(p, b)];
      FillMapping(p, b, which);
      var rescaling := new real[NumScale(p, b)];
      FillFactors(scalesBase, scales, which, p, rescaling);
      base, s, flags, mapping, factors := scalesBase[..], scales[..], isReal[..], which[..], rescaling[..];
    }

    /** The loop over the base scales, with the parse of each one left to the caller. */
    static method CopyScales(parsed: seq<real>, base: array<real>)
      requires |parsed| == base.Length
      modifies base
      ensures base[..] == parsed
    {
      var i := 0;
      while i < base.Length
        invariant 0 <= i <= base.Length
        invariant base[..i] == parsed[..i]
      {
        base[i] := parsed[i];
        i := i + 1;
      }
    }

    /** The scale table: every base scale, then `p - 1` equal steps to the next one. */
    static method FillScales(base: array<real>, p: nat, s: array<real>)
      requires p > 0 && base.Length > 0 && s.Length == NumScale(p, base.Length) && base != s
      modifies s
      ensures s[..] == Scales(base[..], p)
    {
      ghost var sb := base[..];
      var i := 0;
      while i < s.Length
        invariant 0 <= i <= s.Length
        invariant s[..i] == Scales(sb, p)[..i]
      {
        ScaleIndexInRange(p, base.Length, i);
        ghost var done := s[..i];
        var indexScaleBase := i / p;
        var sbase := base[indexScaleBase];
        var j := i % p;
        if j == 0 {
          s[i] := sbase;
        } else {
          var sbaseNext := base[indexScaleBase + 1];
          var step := (sbaseNext - sbase) / (p as real);
          s[i] := sbase + (j as real) * step;
        }
        assert s[i] == ScaleAt(sb, p, i);
        assert s[..i + 1] == done + [s[i]];
        assert Scales(sb, p)[..i + 1] == Scales(sb, p)[..i] + [ScaleAt(sb, p, i)];
        i := i + 1;
      }
      assert s[..] == s[..s.Length];
    }

    /** The flags: all cleared, then set at `k * p` for every base scale `k`; so set exactly at the multiples of `p`. */
    static method FillFlags(p: nat, b: nat, flags: array<int>)
      requires p > 0 && b > 0 && flags.Length == NumScale(p, b)
      modifies flags
      ensures flags[..] == Flags(p, b)
    {
      var i := 0;
      while i < flags.Length
        invariant 0 <= i <= flags.Length
        invariant forall q :: 0 <= q < i ==> flags[q] == 0
      {
        flags[i] := 0;
        i := i + 1;
      }
      NumScaleBounds(p, b);
      var k := 0;
      while k < b
        invariant 0 <= k <= b
        invariant forall i :: 0 <= i < flags.Length ==> flags[i] == if i % p == 0 && i / p < k then 1 else 0
      {
        DivMod(k, 0, p);
        flags[k * p] := 1;
        forall i | 0 <= i < flags.Length && i % p == 0 && i / p == k
          ensures i == k * p
        {
          assert i == (i / p) * p + i % p;
        }
        k := k + 1;
      }
      forall i | 0 <= i < flags.Length && i % p == 0
        ensures i / p < b
      {
        ScaleIndexInRange(p, b, i);
      }
      assert forall i :: 0 <= i < flags.Length ==> flags[i] == Flags(p, b)[i];
    }

    /** The mapping: `roundf(float(i) / float(p))` for every scale. */
    static method FillMapping(p: nat, b: nat, mapping: array<int>)
      requires p > 0 && b > 0 && mapping.Length == NumScale(p, b)
      modifies mapping
      ensures mapping[..] == Mapping(p, b)
    {
      var i := 0;
      while i < mapping.Length
        invariant 0 <= i <= mapping.Length
        invariant forall q :: 0 <= q < i ==> mapping[q] == Nearest(p, q)
      {
        mapping[i] := RoundF((i as real) / (p as real));
        i := i + 1;
      }
      assert forall q :: 0 <= q < mapping.Length ==> mapping[q] == Mapping(p, b)[q];
    }

    /** The factors: each scale over the base scale the mapping gives it. */
    static method FillFactors(base: array<real>, s: array<real>, mapping: array<int>, p: nat, factors: array<real>)
      requires p > 0 && base.Length > 0 && NonZero(base[..]) && s[..] == Scales(base[..], p)
      requires mapping[..] == Mapping(p, base.Length)
      requires factors.Length == s.Length && factors != base && factors != s
      modifies factors
      ensures factors[..] == Factors(base[..], p)
    {
      var i := 0;
      while i < factors.Length
        invariant 0 <= i <= factors.Length
        invariant forall q :: 0 <= q < i ==> factors[q] == Factor(base[..], p, q)
      {
        NearestInRange(p, base.Length, i);
        var scaleBaseIndex := mapping[i];
        var scaleBase := base[scaleBaseIndex];
        var scale := s[i];
        factors[i] := scale / scaleBase;
        i := i + 1;
      }
      assert forall q :: 0 <= q < factors.Length ==> factors[q] == Factors(base[..], p)[q];
    }

    /** The output blob `top` and the trace have the shapes `Reshape` gave them and are different arrays. */
    predicate Planes(top: array<real>)
      reads this
    {
      && top.Length == (numTop * channels) * (height * width)
      && trace.Length == (numTop * ChannelsTrace) * (height * width)
      && top != trace
    }

    /** Plane `c` of output sample `n`. */
    function TopCell(top: seq<real>, n: nat, c: nat): (r: seq<real>)
      reads this
      requires |top| == (numTop * channels) * (height * width) && n < numTop && c < channels
      ensures |r| == height * width
    {
      Cell(top, numTop, channels, height * width, n, c)
    }

    /** Trace plane `k` of output sample `n`. */
    function TraceCell(tr: seq<real>, n: nat, k: nat): (r: seq<real>)
      reads this
      requires |tr| == (numTop * ChannelsTrace) * (height * width) && n < numTop && k < ChannelsTrace
      ensures |r| == height * width
    {
      Cell(tr, numTop, ChannelsTrace, height * width, n, k)
    }

    /** One store into the output plane of channel `c` of sample `n`. */
    method WriteTop(n: nat, c: nat, q: nat, v: real, top: array<real>)
      requires Planes(top) && n < numTop && c < channels && q < height * width
      modifies top
      ensures top[..] == old(top[..])[Slot(numTop, channels, height * width, n, c, q) := v]
    {
      top[Slot(numTop, channels, height * width, n, c, q)] := v;
    }

    /** One store into trace plane `k` of sample `n`. */
    method WriteTrace(n: nat, k: nat, q: nat, v: real)
      requires trace.Length == (numTop * ChannelsTrace) * (height * width)
      requires n < numTop && k < ChannelsTrace && q < height * width
      modifies trace
      ensures trace[..] == old(trace[..])[Slot(numTop, ChannelsTrace, height * width, n, k, q) := v]
    {
      trace[Slot(numTop, ChannelsTrace, height * width, n, k, q)] := v;
    }

    /** Trace slot `t` of pixel `q` of sample `n`: the input index in plane `2 t`, the weight in plane `2 t + 1`. */
    method WriteSlot(n: nat, q: nat, t: nat, index: real, weight: real)
      requires trace.Length == (numTop * ChannelsTrace) * (height * width)
      requires n < numTop && t < ChannelsTrace / 2 && q < height * width
      modifies trace
      ensures trace[..] == old(trace[..])
        [Slot(numTop, ChannelsTrace, height * width, n, 2 * t, q) := index]
        [Slot(numTop, ChannelsTrace, height * width, n, 2 * t + 1, q) := weight]
    {
      WriteTrace(n, 2 * t, q, index);
      WriteTrace(n, 2 * t + 1, q, weight);
    }

    /** One turn of the loop of `WriteSlots`: slot `t` joins the slots already written. */
    method SlotsStep(n: nat, q: nat, t: nat, index: real, weight: real, ghost t0: seq<real>)
      requires trace.Length == (numTop * ChannelsTrace) * (height * width)
      requires n < numTop && t < ChannelsTrace / 2 && q < height * width && |t0| == trace.Length
      requires trace[..] == Scatter(t0, numTop, ChannelsTrace, height * width, n, q, SlotPairs(index, weight), 2 * t)
      modifies trace
      ensures trace[..] == Scatter(t0, numTop, ChannelsTrace, height * width, n, q, SlotPairs(index, weight), 2 * t + 2)
    {
      SlotPairsAt(index, weight, t);
      ScatterTwo(t0, numTop, ChannelsTrace, height * width, n, q, SlotPairs(index, weight), 2 * t);
      WriteSlot(n, q, t, index, weight);
    }

    /** The loop that gives all four slots of pixel `q` the same index and weight. */
    method WriteSlots(n: nat, q: nat, index: real, weight: real)
      requires trace.Length == (numTop * ChannelsTrace) * (height * width)
      requires n < numTop && q < height * width
      modifies trace
      ensures trace[..] == Scatter(old(trace[..]), numTop, ChannelsTrace, height * width, n, q, SlotPairs(index, weight), ChannelsTrace)
    {
      ghost var vals, t0 := SlotPairs(index, weight), trace[..];
      var i := 0;
      while i < ChannelsTrace / 2
        invariant 0 <= i <= ChannelsTrace / 2
        invariant trace[..] == Scatter(t0, numTop, ChannelsTrace, height * width, n, q, vals, 2 * i)
      {
        SlotsStep(n, q, i, index, weight, t0);
        i := i + 1;
      }
    }

    /**
     * Neighbour `(dx, dy)`, the `i`-th, of the bilinear branch for pixel `q`
     * of sample `n`: one on the plane adds `cx[1 - dx] * cy[1 - dy]` times
     * its input value to `val` and (for the first channel) records its index
     * and that weight in slot `i`; one off the plane records -1 and 0.
     */
    method Neighbour(n: nat, c: nat, plane: seq<real>, origin: int, q: nat,
                     xi: int, yi: int, cx: seq<real>, cy: seq<real>, dx: nat, dy: nat, i: nat, val: real)
      returns (r: real)
      requires trace.Length == (numTop * ChannelsTrace) * (height * width)
      requires n < numTop && q < height * width && |plane| == height * width
      requires |cx| == 2 && |cy| == 2 && dx < 2 && dy < 2 && i == 2 * dx + dy
      modifies trace
      ensures r == val + TapValue(plane, GridTap(height, width, xi, yi, cx, cy, dx, dy))
      ensures c == 0 ==> trace[..] == old(trace[..])
        [Slot(numTop, ChannelsTrace, height * width, n, 2 * i, q) := TapIndex(origin, GridTap(height, width, xi, yi, cx, cy, dx, dy))]
        [Slot(numTop, ChannelsTrace, height * width, n, 2 * i + 1, q) := TapWeight(GridTap(height, width, xi, yi, cx, cy, dx, dy))]
      ensures c != 0 ==> trace[..] == old(trace[..])
    {
      if 0 <= xi + dx < width && 0 <= yi + dy < height {
        RowBound(yi + dy, xi + dx, height, width);
        var pos := (yi + dy) * width + (xi + dx);
        r := val + cx[1 - dx] * cy[1 - dy] * plane[pos];
        if c == 0 {
          WriteSlot(n, q, i, (origin + pos) as real, cx[1 - dx] * cy[1 - dy]);
        }
      } else {
        r := val;
        if c == 0 {
          WriteSlot(n, q, i, -1.0, 0.0);
        }
      }
    }

    /**
     * Neighbour `(dx, dy)` as a step of the `dx` and `dy` loops: the value
     * and the trace after the first `i` neighbours are extended by the
     * `i`-th.
     */
    method NeighbourStep(n: nat, c: nat, plane: seq<real>, origin: int, q: nat, xi: int, yi: int, cx: seq<real>, cy: seq<real>,
                         ghost t0: seq<real>, dx: nat, dy: nat, i: nat, val: real)
      returns (r: real)
      requires trace.Length == (numTop * ChannelsTrace) * (height * width)
      requires n < numTop && q < height * width && dx < 2 && dy < 2 && i == 2 * dx + dy
      requires GridProgress(t0, trace[..], numTop, height, width, n, q, plane, origin, xi, yi, cx, cy, c, i, val)
      modifies trace
      ensures GridProgress(t0, trace[..], numTop, height, width, n, q, plane, origin, xi, yi, cx, cy, c, i + 1, r)
    {
      ghost var t1 := trace[..];
      assert i / 2 == dx && i % 2 == dy;
      r := Neighbour(n, c, plane, origin, q, xi, yi, cx, cy, dx, dy, i, val);
      GridAdvance(t0, t1, trace[..], numTop, height, width, n, q, plane, origin, xi, yi, cx, cy, c, i, val, r);
    }

    /**
     * The `dx` and `dy` loops of the bilinear branch for pixel `q` of sample
     * `n`, with `i` counting the neighbours.
     */
    method Neighbours(n: nat, c: nat, plane: seq<real>, origin: int, q: nat, xi: int, yi: int, cx: seq<real>, cy: seq<real>)
      returns (val: real)
      requires trace.Length == (numTop * ChannelsTrace) * (height * width)
      requires n < numTop && q < height * width && |plane| == height * width && |cx| == 2 && |cy| == 2
      modifies trace
      ensures val == GridInterpolated(plane, height, width, xi, yi, cx, cy, 4)
      ensures c == 0 ==> trace[..] == Scatter(old(trace[..]), numTop, ChannelsTrace, height * width, n, q,
        GridSlots(origin, height, width, xi, yi, cx, cy), ChannelsTrace)
      ensures c != 0 ==> trace[..] == old(trace[..])
    {
      ghost var t0 := trace[..];
      val := 0.0;
      var i := 0;
      for dx := 0 to 2
        invariant i == 2 * dx
        invariant GridProgress(t0, trace[..], numTop, height, width, n, q, plane, origin, xi, yi, cx, cy, c, i, val)
      {
        for dy := 0 to 2
          invariant i == 2 * dx + dy
          invariant GridProgress(t0, trace[..], numTop, height, width, n, q, plane, origin, xi, yi, cx, cy, c, i, val)
        {
          val := NeighbourStep(n, c, plane, origin, q, xi, yi, cx, cy, t0, dx, dy, i, val);
          i := i + 1;
        }
      }
    }

    /**
     * The bilinear branch for an in-range pixel: the floors `xi`, `yi` of
     * the resampled position, the weight pairs `cx`, `cy` of its fractions,
     * then the four neighbours.
     */
    method Interpolate(n: nat, c: nat, factor: real, plane: seq<real>, origin: int, h: nat, w: nat, q: nat)
      returns (val: real)
      requires trace.Length == (numTop * ChannelsTrace) * (height * width)
      requires n < numTop && h < height && w < width && q == h * width + w && q < height * width
      requires |plane| == height * width && InRange(factor, height, width, h, w)
      modifies trace
      ensures val == Interpolated(plane, factor, height, width, h, w, 4)
      ensures c == 0 ==> trace[..] == Scatter(old(trace[..]), numTop, ChannelsTrace, height * width, n, q,
        PixelTrace(false, factor, height, width, origin, h, w), ChannelsTrace)
      ensures c != 0 ==> trace[..] == old(trace[..])
    {
      var xp, yp := (w as real) / factor, (h as real) / factor;
      var xi, yi := xp.Floor, yp.Floor;
      var ux, uy := xp - (xi as real), yp - (yi as real);
      var cx, cy := [ux, 1.0 - ux], [uy, 1.0 - uy];
      InterpolatedOnGrid(plane, factor, height, width, origin, h, w, xi, yi, cx, cy);
      val := Neighbours(n, c, plane, origin, q, xi, yi, cx, cy);
    }

    /**
     * Pixel `q = h * width + w` of channel `c` of output sample `n`: a copy at a
     * base scale, the bilinear value inside the plane, and otherwise the
     * zero already there.  The first channel also writes the pixel's trace.
     */
    method WritePixel(n: nat, c: nat, isReal: bool, factor: real, plane: seq<real>, origin: int, h: nat, w: nat, q: nat,
                      top: array<real>)
      requires Planes(top) && n < numTop && c < channels && h < height && w < width
      requires q == h * width + w && q < height * width && |plane| == height * width
      requires top[Slot(numTop, channels, height * width, n, c, q)] == 0.0
      modifies top, trace
      ensures top[..] == old(top[..])[Slot(numTop, channels, height * width, n, c, q) := TopPixel(isReal, factor, height, width, plane, h, w)]
      ensures c == 0 ==> trace[..] == Scatter(old(trace[..]), numTop, ChannelsTrace, height * width, n, q,
        PixelTrace(isReal, factor, height, width, origin, h, w), ChannelsTrace)
      ensures c != 0 ==> trace[..] == old(trace[..])
    {
      if isReal {
        WriteTop(n, c, q, plane[q], top);
        if c == 0 {
          RealPixelTrace(factor, height, width, origin, h, w);
          WriteSlots(n, q, (origin + q) as real, 0.25);
        }
      } else if InRange(factor, height, width, h, w) {
        var val := Interpolate(n, c, factor, plane, origin, h, w, q);
        WriteTop(n, c, q, val, top);
      } else {
        if c == 0 {
          OutOfRangePixelTrace(factor, height, width, origin, h, w);
          WriteSlots(n, q, -1.0, 0.0);
        }
        assert top[..] == old(top[..])[Slot(numTop, channels, height * width, n, c, q) := 0.0];
      }
    }

    /**
     * Pixel `q = h * width + w` of the `w` loop as a step of the plane's
     * stores: `top` over `top0` and the trace over `trace0` gain that pixel.
     */
    method PixelStep(n: nat, c: nat, isReal: bool, factor: real, plane: seq<real>, origin: int, h: nat, w: nat, q: nat,
                     top: array<real>, ghost top0: seq<real>, ghost trace0: seq<real>, ghost want: seq<real>, ghost planes: seq<seq<real>>)
      requires Planes(top) && n < numTop && c < channels && h < height && w < width
      requires q == h * width + w && q < height * width && |plane| == height * width
      requires want == ResampledPlane(isReal, factor, height, width, plane) && planes == TracePlanes(isReal, factor, height, width, origin)
      requires |top0| == top.Length && TopCell(top0, n, c) == Zeros(height * width)
      requires PlaneProgress(top0, top[..], trace0, trace[..], numTop, channels, height * width, n, c, want, planes, q)
      modifies top, trace
      ensures PlaneProgress(top0, top[..], trace0, trace[..], numTop, channels, height * width, n, c, want, planes, q + 1)
    {
      ResampledPlaneAt(isReal, factor, height, width, plane, h, w);
      TracePlanesAt(isReal, factor, height, width, origin, h, w);
      OverwriteMiss(top0, numTop, channels, height * width, n, c, want, q, n, c, q);
      CellAt(top0, numTop, channels, height * width, n, c, q);
      OverwriteNext(top0, numTop, channels, height * width, n, c, want, q);
      SweepNext(trace0, numTop, ChannelsTrace, height * width, n, planes, q);
      WritePixel(n, c, isReal, factor, plane, origin, h, w, q, top);
    }

    /**
     * The `w` loop over row `h` of channel `c` of output sample `n`;
     * `rowStart` is `h * width`.  `top0` and `trace0` are the two blobs
     * before the channel's first row, and the rows before `h` are done.
     */
    method ForwardRow(n: nat, c: nat, isReal: bool, factor: real, plane: seq<real>, origin: int, h: nat, rowStart: nat,
                      top: array<real>, ghost top0: seq<real>, ghost trace0: seq<real>, ghost want: seq<real>, ghost planes: seq<seq<real>>)
      requires Planes(top) && n < numTop && c < channels && h < height && |plane| == height * width
      requires rowStart == h * width && rowStart + width <= height * width
      requires want == ResampledPlane(isReal, factor, height, width, plane) && planes == TracePlanes(isReal, factor, height, width, origin)
      requires |top0| == top.Length && TopCell(top0, n, c) == Zeros(height * width)
      requires PlaneProgress(top0, top[..], trace0, trace[..], numTop, channels, height * width, n, c, want, planes, rowStart)
      modifies top, trace
      ensures PlaneProgress(top0, top[..], trace0, trace[..], numTop, channels, height * width, n, c, want, planes, rowStart + width)
    {
      var w := 0;
      while w < width
        invariant 0 <= w <= width
        invariant PlaneProgress(top0, top[..], trace0, trace[..], numTop, channels, height * width, n, c, want, planes, rowStart + w)
      {
        PixelStep(n, c, isReal, factor, plane, origin, h, w, rowStart + w, top, top0, trace0, want, planes);
        w := w + 1;
      }
    }

    /** The `h` loop over channel `c` of output sample `n`, which starts out zero. */
    method ForwardChannel(n: nat, c: nat, isReal: bool, factor: real, plane: seq<real>, origin: int, top: array<real>)
      requires Planes(top) && n < numTop && c < channels && |plane| == height * width
      requires TopCell(top[..], n, c) == Zeros(height * width)
      modifies top, trace
      ensures top[..] == Overwrite(old(top[..]), numTop, channels, height * width, n, c,
        ResampledPlane(isReal, factor, height, width, plane), height * width)
      ensures c == 0 ==> trace[..] == Sweep(old(trace[..]), numTop, ChannelsTrace, height * width, n,
        TracePlanes(isReal, factor, height, width, origin), height * width)
      ensures c != 0 ==> trace[..] == old(trace[..])
    {
      ghost var top0, trace0 := top[..], trace[..];
      ghost var want := ResampledPlane(isReal, factor, height, width, plane);
      ghost var planes := TracePlanes(isReal, factor, height, width, origin);
      var h := 0;
      var rowStart: nat := 0;
      while h < height
        invariant 0 <= h <= height && rowStart == h * width && rowStart <= height * width
        invariant PlaneProgress(top0, top[..], trace0, trace[..], numTop, channels, height * width, n, c, want, planes, rowStart)
      {
        RowEnd(h, height, width);
        ForwardRow(n, c, isReal, factor, plane, origin, h, rowStart, top, top0, trace0, want, planes);
        h := h + 1;
        rowStart := rowStart + width;
      }
    }

    /**
     * `batch_data` for channel `c`: plane `c` of input sample `batch`, the
     * plane whose resampling is output plane `c` of sample `n`.
     */
    method ReadPlane(bottom: seq<real>, n: nat, isReal: bool, factor: real, batch: nat, c: nat) returns (plane: seq<real>)
      requires Reshaped() && |bottom| == (num * channels) * (height * width) && n < numTop && c < channels
      requires batch == SourceSample(numPerOctave, numScaleBase, n) && batch < num
      requires isReal == RealSample(Layout(), n) && factor == SampleFactor(Layout(), n)
      ensures |plane| == height * width && plane == InputPlane(Layout(), bottom, batch, c)
      ensures ResampledPlane(isReal, factor, height, width, plane) == TopPlane(Layout(), bottom, n, c)
    {
      RowBound(batch, c, num, channels);
      plane := Row(bottom, num * channels, height * width, batch * channels + c);
    }

    /**
     * Channel `c` of the `c` loop as a step: its plane of the output is
     * resampled from the input plane `plane` and, for the first channel,
     * the sample's trace is written.
     */
    method ChannelStep(n: nat, isReal: bool, factor: real, plane: seq<real>, origin: int, top: array<real>, c: nat,
                       ghost top0: seq<real>, ghost trace0: seq<real>, ghost want: seq<seq<real>>, ghost planes: seq<seq<real>>)
      requires Planes(top) && n < numTop && c < channels && |plane| == height * width
      requires |want| == channels && ResampledPlane(isReal, factor, height, width, plane) == want[c]
      requires planes == TracePlanes(isReal, factor, height, width, origin)
      requires ChannelsProgress(top0, top[..], trace0, trace[..], numTop, channels, height * width, n, want, planes, c)
      modifies top, trace
      ensures ChannelsProgress(top0, top[..], trace0, trace[..], numTop, channels, height * width, n, want, planes, c + 1)
    {
      ghost var top1, trace1 := top[..], trace[..];
      ForwardChannel(n, c, isReal, factor, plane, origin, top);
      ChannelsAdvance(top0, top1, top[..], trace0, trace1, trace[..], numTop, channels, height * width, n, want, planes, c);
    }

    /**
     * The `c` loop of output sample `n`, which reads input sample `batch`
     * (starting at index `origin`) with flag `isReal` and factor `factor`.
     */
    method ForwardChannels(bottom: seq<real>, n: nat, isReal: bool, factor: real, batch: nat, origin: int, top: array<real>)
      requires Reshaped() && Planes(top) && |bottom| == (num * channels) * (height * width) && n < numTop
      requires batch == SourceSample(numPerOctave, numScaleBase, n) && batch < num
      requires isReal == RealSample(Layout(), n) && factor == SampleFactor(Layout(), n) && origin == Origin(Layout(), n)
      requires forall c :: 0 <= c < channels ==> Cell(top[..], numTop, channels, height * width, n, c) == Zeros(height * width)
      modifies top, trace
      ensures SampleDone(Layout(), bottom, old(top[..]), top[..], old(trace[..]), trace[..], n)
    {
      ghost var d, chans := Layout(), channels;
      ghost var want := seq(chans, l requires 0 <= l < chans => TopPlane(d, bottom, n, l));
      ghost var planes := TracePlanes(isReal, factor, height, width, origin);
      ghost var top0, trace0 := top[..], trace[..];
      var c := 0;
      while c < channels
        invariant 0 <= c <= channels
        invariant ChannelsProgress(top0, top[..], trace0, trace[..], numTop, channels, height * width, n, want, planes, c)
      {
        var plane := ReadPlane(bottom, n, isReal, factor, batch, c);
        ChannelStep(n, isReal, factor, plane, origin, top, c, top0, trace0, want, planes);
        c := c + 1;
      }
      ChannelsDone(d, bottom, top0, top[..], trace0, trace[..], n, want, planes);
    }

    /**
     * One pass of the `n` loop: the sample's scale, its flag, base scale and
     * factor, the input sample it reads, then the `c` loop.
     */
    method ForwardSample(bottom: seq<real>, n: nat, top: array<real>)
      requires Reshaped() && Planes(top) && |bottom| == (num * channels) * (height * width) && n < numTop
      requires forall c :: 0 <= c < channels ==> Cell(top[..], numTop, channels, height * width, n, c) == Zeros(height * width)
      modifies top, trace
      ensures SampleDone(Layout(), bottom, old(top[..]), top[..], old(trace[..]), trace[..], n)
    {
      ghost var d := Layout();
      var indexImage := n / numScale;
      var indexScale := n % numScale;
      var flag := isRealScales[indexScale];
      NearestInRange(numPerOctave, numScaleBase, indexScale);
      var indexScaleBase := whichBaseScales[indexScale];
      var factor := rescalingFactors[indexScale];
      var indexBatch := indexImage * numScaleBase + indexScaleBase;
      SourceSampleInRange(num, numPerOctave, numScaleBase, n);
      assert indexBatch == SourceSample(numPerOctave, numScaleBase, n);
      var origin: int := indexBatch * channels * height * width;
      assert (flag == 1) == RealSample(d, n) && factor == SampleFactor(d, n) && origin == Origin(d, n);
      ForwardChannels(bottom, n, flag == 1, factor, indexBatch, origin, top);
    }

    /**
     * `Forward_cpu`: the output blob is cleared, then every output sample is
     * resampled from its input sample plane by plane; the first channel's
     * pass writes the sample's trace.
     */
    method Forward(bottom: seq<real>, top: array<real>)
      requires Reshaped() && Planes(top) && |bottom| == (num * channels) * (height * width)
      modifies top, trace
      ensures forall n, c :: 0 <= n < numTop && 0 <= c < channels ==> TopCell(top[..], n, c) == TopPlane(Layout(), bottom, n, c)
      ensures channels > 0 ==> forall n, k :: 0 <= n < numTop && 0 <= k < ChannelsTrace ==>
        TraceCell(trace[..], n, k) == TracePlane(Layout(), n, k)
      ensures channels == 0 ==> trace[..] == old(trace[..])
    {
      Set(top, 0, top.Length, 0.0);
      ghost var d, trace0 := Layout(), trace[..];
      SamplesStart(d, bottom, top[..], trace0);
      var n := 0;
      while n < numTop
        invariant 0 <= n <= numTop
        invariant SamplesProgress(d, bottom, top[..], trace0, trace[..], n)
      {
        ghost var top1, trace1 := top[..], trace[..];
        ForwardSample(bottom, n, top);
        SamplesAdvance(d, bottom, top1, top[..], trace0, trace1, trace[..], n);
        n := n + 1;
      }
    }
  }
}
