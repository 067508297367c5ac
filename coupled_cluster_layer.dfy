/**
 * The coupled cluster loss layer: its set-up checks, its member state and the
 * forward and backward passes that write that state.  Buffers the layer owns
 * (`pos_center_`, `diff_`, `dist_sq_`) are arrays; the index lists and flags
 * it keeps between the passes are sequence fields the passes reassign.
 */
module CoupledClusterLoss {
  import opened Wrappers
  import opened Blobs
  import opened Flat
  import opened Vectors
  import opened Blas
  import opened CoupledClusterSpec

  /** The layer's registered type string. */
  const TypeName: string := "CoupledClusterLoss"
  /** Features and labels. */
  const ExactNumBottomBlobs: nat := 2
  /** The loss. */
  const ExactNumTopBlobs: nat := 1

  /** `coupled_cluster_loss_param`: group size, margin and scale. */
  datatype Param = Param(groupSize: nat, margin: real, scale: real)

  /** The check that stops set-up, in the order the checks run. */
  datatype SetupError =
    | WrongBlobCount
    | ZeroGroupSize
    | BatchNotMultiple
    | NumMismatch
    | FeaturesNotFlat
    | LabelsNotScalar

  /**
   * Set-up: the blob counts, then `num % N == 0`, then the two inputs agree
   * on `num`, the features are `C x 1 x 1` and the labels `1 x 1 x 1`.  A
   * zero group size is refused before the division by it.
   */
  function SetUp(p: Param, bottoms: seq<Shape>, numTops: nat): (r: Result<Config, SetupError>)
    ensures r.Ok? <==>
      && |bottoms| == ExactNumBottomBlobs && numTops == ExactNumTopBlobs
      && p.groupSize > 0 && bottoms[0].num % p.groupSize == 0
      && bottoms[0].num == bottoms[1].num
      && bottoms[0].height == 1 && bottoms[0].width == 1
      && bottoms[1].channels == 1 && bottoms[1].height == 1 && bottoms[1].width == 1
    ensures r == Err(WrongBlobCount) <==> !(|bottoms| == ExactNumBottomBlobs && numTops == ExactNumTopBlobs)
    ensures (|bottoms| == ExactNumBottomBlobs && numTops == ExactNumTopBlobs) ==>
      (r == Err(ZeroGroupSize) <==> p.groupSize == 0)
    ensures (|bottoms| == ExactNumBottomBlobs && numTops == ExactNumTopBlobs && p.groupSize > 0) ==>
      (r == Err(BatchNotMultiple) <==> bottoms[0].num % p.groupSize != 0)
    ensures (|bottoms| == ExactNumBottomBlobs && numTops == ExactNumTopBlobs && p.groupSize > 0
             && bottoms[0].num % p.groupSize == 0) ==>
      (r == Err(NumMismatch) <==> bottoms[0].num != bottoms[1].num)
    ensures (|bottoms| == ExactNumBottomBlobs && numTops == ExactNumTopBlobs && p.groupSize > 0
             && bottoms[0].num % p.groupSize == 0 && bottoms[0].num == bottoms[1].num) ==>
      (r == Err(FeaturesNotFlat) <==> !(bottoms[0].height == 1 && bottoms[0].width == 1))
    ensures (|bottoms| == ExactNumBottomBlobs && numTops == ExactNumTopBlobs && p.groupSize > 0
             && bottoms[0].num % p.groupSize == 0 && bottoms[0].num == bottoms[1].num
             && bottoms[0].height == 1 && bottoms[0].width == 1) ==>
      (r == Err(LabelsNotScalar) <==> !(bottoms[1].channels == 1 && bottoms[1].height == 1 && bottoms[1].width == 1))
    ensures r.Ok? ==>
      && r.value.n == p.groupSize && r.value.n > 0
      && r.value.groupNum * r.value.n == bottoms[0].num
      && r.value.featLen == bottoms[0].channels
      && r.value.margin == p.margin && r.value.scale == p.scale
  {
    if |bottoms| != ExactNumBottomBlobs || numTops != ExactNumTopBlobs then Err(WrongBlobCount)
    else if p.groupSize == 0 then Err(ZeroGroupSize)
    else if bottoms[0].num % p.groupSize != 0 then Err(BatchNotMultiple)
    else if bottoms[0].num != bottoms[1].num then Err(NumMismatch)
    else if bottoms[0].height != 1 || bottoms[0].width != 1 then Err(FeaturesNotFlat)
    else if bottoms[1].channels != 1 || bottoms[1].height != 1 || bottoms[1].width != 1 then Err(LabelsNotScalar)
    else
      var groupNum := bottoms[0].num / p.groupSize;
      assert groupNum * p.groupSize == bottoms[0].num;
      Ok(Config(p.groupSize, groupNum, bottoms[0].channels, p.margin, p.scale))
  }

  /** Set-up refuses a batch that is not a whole number of groups. */
  lemma SetUpNeedsWholeGroups(p: Param, bottoms: seq<Shape>, numTops: nat)
    requires SetUp(p, bottoms, numTops).Ok?
    ensures exists k: nat :: bottoms[0].num == k * p.groupSize
  {
    var c := SetUp(p, bottoms, numTops).value;
    assert bottoms[0].num == c.groupNum * p.groupSize;
  }

  class CoupledClusterLossLayer {
    const n: nat
    const groupNum: nat
    const featLen: nat
    const margin: real
    const scale: real

    /** `pos_ids` and `neg_ids`: per group, the positive and the negative members. */
    var posIds: seq<seq<nat>>
    var negIds: seq<seq<nat>>
    /** `pos_backward` and `neg_backward`: per sample, whether Backward writes its row. */
    var posBackward: seq<bool>
    var negBackward: seq<bool>

    /** `pos_center_`: `groupNum x featLen`. */
    const posCenter: array<real>
    /** `diff_`: `(groupNum * n) x featLen`. */
    const diff: array<real>
    /** `dist_sq_`: one entry per sample. */
    const distSq: array<real>

    /** The configuration the fields hold. */
    function Cfg(): Config
    {
      Config(n, groupNum, featLen, margin, scale)
    }

    /** The buffers have the shapes set-up gives them and are three distinct arrays. */
    predicate Valid()
    {
      && n > 0
      && posCenter.Length == groupNum * featLen
      && diff.Length == (groupNum * n) * featLen
      && distSq.Length == groupNum * n
      && posCenter != diff && posCenter != distSq && diff != distSq
    }

    /** The end of `LayerSetUp`: the buffers get the shapes `c` fixes. */
    constructor (c: Config)
      requires c.n > 0
      ensures Cfg() == c && Valid()
      ensures posIds == [] && negIds == [] && posBackward == [] && negBackward == []
      ensures fresh(posCenter) && fresh(diff) && fresh(distSq)
    {
      n, groupNum, featLen, margin, scale := c.n, c.groupNum, c.featLen, c.margin, c.scale;
      posIds, negIds, posBackward, negBackward := [], [], [], [];
      posCenter := new real[c.groupNum * c.featLen];
      diff := new real[(c.groupNum * c.n) * c.featLen];
      distSq := new real[c.groupNum * c.n];
    }

    /**
     * `Reshape`: the loss layer's own check that the features (`bottomNum`
     * samples) and the labels (`labelNum` samples) agree, then that the
     * batch still holds `N * group_num` samples.
     */
    method Reshape(bottomNum: nat, labelNum: nat) returns (ok: bool)
      ensures ok <==> bottomNum == labelNum && bottomNum == groupNum * n
    {
      if bottomNum != labelNum {
        return false;
      }
      ok := bottomNum == n * groupNum;
    }

    /** The `diff_` row of member `j` of group `i`. */
    function DiffRow(i: nat, j: nat): (r: seq<real>)
      reads diff
      requires Valid() && i < groupNum && j < n
      ensures |r| == featLen
    {
      Cell(diff[..], groupNum, n, featLen, i, j)
    }

    /** The `dist_sq_` entries of the members of group `i`. */
    function DistRow(i: nat): (r: seq<real>)
      reads distSq
      requires Valid() && i < groupNum
      ensures |r| == n
    {
      Row(distSq[..], groupNum, n, i)
    }

    /** The `pos_backward` flags of the members of group `i`. */
    function PosRow(i: nat): (r: seq<bool>)
      reads this`posBackward
      requires Valid() && |posBackward| == groupNum * n && i < groupNum
      ensures |r| == n
    {
      Row(posBackward, groupNum, n, i)
    }

    /** The `neg_backward` flags of the members of group `i`. */
    function NegRow(i: nat): (r: seq<bool>)
      reads this`negBackward
      requires Valid() && |negBackward| == groupNum * n && i < groupNum
      ensures |r| == n
    {
      Row(negBackward, groupNum, n, i)
    }

    /** The `pos_center_` row of group `i`. */
    function CenterRow(i: nat): (r: seq<real>)
      reads posCenter
      requires Valid() && i < groupNum
      ensures |r| == featLen
    {
      Row(posCenter[..], groupNum, featLen, i)
    }

    /** The index lists hold one entry per group and the flags one per sample. */
    predicate Sized()
      reads this
    {
      |posIds| == groupNum && |negIds| == groupNum && |posBackward| == groupNum * n && |negBackward| == groupNum * n
    }

    /** Group `i` as the start of `Forward_cpu` leaves it: no ids, a zero centroid row, no flags. */
    predicate Pending(i: nat)
      reads this, posCenter
      requires Valid() && Sized() && i < groupNum
    {
      && posIds[i] == [] && negIds[i] == [] && CenterRow(i) == Zeros(featLen)
      && (forall j :: 0 <= j < n ==> !PosRow(i)[j] && !NegRow(i)[j])
    }

    /**
     * Group `i` as `Forward_cpu` leaves it: its partition, its centroid, the
     * `diff_` rows and distances of a contributing group, and its flags.
     */
    predicate Done(feats: seq<real>, labels: seq<real>, i: nat)
      reads this, posCenter, diff, distSq
      requires Valid() && Sized() && Shaped(Cfg(), feats, labels) && i < groupNum
    {
      var c, g := Cfg(), GroupLabels(Cfg(), labels, i);
      && posIds[i] == Positives(g) && negIds[i] == Negatives(g)
      && CenterRow(i) == CenterOf(c, feats, labels, i)
      && (Contributes(g) ==> DistRow(i) == DistsOf(c, feats, labels, i))
      && (Contributes(g) ==> forall j :: 0 <= j < n ==> DiffRow(i, j) == DiffOf(c, feats, labels, i, j))
      && (forall j :: 0 <= j < n ==> PosRow(i)[j] == PosFlagOf(c, feats, labels, i, j))
      && (forall j :: 0 <= j < n ==> NegRow(i)[j] == NegFlagOf(c, feats, labels, i, j))
    }

    /**
     * The anchor scan of `Forward_cpu` for group `i`: labels go into a set
     * until one is already there.
     */
    method FindAnchor(labels: seq<real>, i: nat) returns (anchor: real)
      requires Valid() && |labels| == groupNum * n && i < groupNum
      ensures anchor == Anchor(GroupLabels(Cfg(), labels, i))
    {
      var g := GroupLabels(Cfg(), labels, i);
      var seen: set<real> := {};
      anchor := NoAnchor;
      var j := 0;
      while j < n
        invariant 0 <= j <= n
        invariant anchor == NoAnchor
        invariant AnchorFrom(g, j, seen) == Anchor(g)
      {
        RowBound(i, j, groupNum, n);
        var tmp := labels[n * i + j];
        assert tmp == g[j];
        if tmp in seen {
          anchor := tmp;
          return;
        }
        seen := seen + {tmp};
        j := j + 1;
      }
    }
  
    /** `caffe_add` of one feature row `f` into row `i` of the centroid buffer `center`; no other row changes. */
    static method AddToCenter(center: array<real>, groups: nat, len: nat, i: nat, f: seq<real>)
      requires center.Length == groups * len && i < groups && |f| == len
      modifies center
      ensures Row(center[..], groups, len, i) == Add(Row(old(center[..]), groups, len, i), f)
      ensures forall k :: 0 <= k < groups && k != i ==> Row(center[..], groups, len, k) == Row(old(center[..]), groups, len, k)
    {
      RowEnd(i, groups, len);
      var off: nat := i * len;
      ghost var before := center[..];
      AddInto(f, center, off);
      assert Row(before, groups, len, i) == before[off .. off + len];
      assert Row(center[..], groups, len, i) == center[off .. off + len];
      RowFrame(before, center[..], groups, len, i);
    }

    /**
     * How far the partition loop of `Forward_cpu` has got in group `i`
     * (labels `g`, feature rows `x`): `pos` and `neg` list the members before
     * `j` with and without the anchor's label, centroid row `i` of `cs` holds
     * the sum of the rows in `pos`, and every other row is as in `c0`.
     */
    static ghost predicate Collected(cs: seq<real>, c0: seq<real>, groups: nat, len: nat, g: seq<real>, x: seq<seq<real>>,
                                     anchor: real, i: nat, j: nat, pos: seq<nat>, neg: seq<nat>)
    {
      && |cs| == groups * len && |c0| == |cs| && i < groups && |g| == |x| && Uniform(x, len) && j <= |g|
      && pos == Select(g, anchor, true, j) && neg == Select(g, anchor, false, j)
      && Below(pos, j)
      && Row(cs, groups, len, i) == VecSum(Pick(x, len, pos), len)
      && (forall k :: 0 <= k < groups && k != i ==> Row(cs, groups, len, k) == Row(c0, groups, len, k))
    }

    /** One turn of the partition loop: member `j` joins `pos` (and the centroid sum) or `neg`. */
    static method CollectStep(c: Config, feats: seq<real>, center: array<real>, g: seq<real>, ghost x: seq<seq<real>>,
                              anchor: real, ghost c0: seq<real>, i: nat, j: nat, pos: seq<nat>, neg: seq<nat>)
      returns (pos': seq<nat>, neg': seq<nat>)
      requires |feats| == (c.groupNum * c.n) * c.featLen && i < c.groupNum && j < c.n
      requires x == GroupRows(c, feats, i)
      requires Collected(center[..], c0, c.groupNum, c.featLen, g, x, anchor, i, j, pos, neg)
      modifies center
      ensures Collected(center[..], c0, c.groupNum, c.featLen, g, x, anchor, i, j + 1, pos', neg')
    {
      SelectBelow(g, anchor, true, j + 1);
      if g[j] == anchor {
        PickAppend(x, c.featLen, pos, j);
        VecSumAppend(Pick(x, c.featLen, pos), x[j], c.featLen);
        pos', neg' := pos + [j], neg;
        AddToCenter(center, c.groupNum, c.featLen, i, Member(c, feats, i, j));
      } else {
        pos', neg' := pos, neg + [j];
      }
    }

    /**
     * The partition loop of `Forward_cpu` for group `i`: members whose label
     * is the anchor go to `pos_ids[i]` and have their feature row added to
     * the centroid row; the others go to `neg_ids[i]`.
     */
    method CollectGroup(feats: seq<real>, labels: seq<real>, i: nat, anchor: real)
      requires Valid() && Shaped(Cfg(), feats, labels) && i < groupNum
      requires |posIds| == groupNum && |negIds| == groupNum && posIds[i] == [] && negIds[i] == []
      requires CenterRow(i) == Zeros(featLen)
      modifies this`posIds, this`negIds, posCenter
      ensures posIds == old(posIds)[i := Select(GroupLabels(Cfg(), labels, i), anchor, true, n)]
      ensures negIds == old(negIds)[i := Select(GroupLabels(Cfg(), labels, i), anchor, false, n)]
      ensures Below(posIds[i], n)
      ensures CenterRow(i) == VecSum(Pick(GroupRows(Cfg(), feats, i), featLen, posIds[i]), featLen)
      ensures forall k :: 0 <= k < groupNum && k != i ==> CenterRow(k) == old(CenterRow(k))
    {
      var g := GroupLabels(Cfg(), labels, i);
      ghost var x, c0 := GroupRows(Cfg(), feats, i), posCenter[..];
      var pos, neg := [], [];
      var j := 0;
      while j < n
        invariant j <= n && posIds == old(posIds) && negIds == old(negIds)
        invariant Collected(posCenter[..], c0, groupNum, featLen, g, x, anchor, i, j, pos, neg)
      {
        pos, neg := CollectStep(Cfg(), feats, posCenter, g, x, anchor, c0, i, j, pos, neg);
        j := j + 1;
      }
      posIds, negIds := posIds[i := pos], negIds[i := neg];
    }

    /**
     * One step of the distance loop of `Forward_cpu`: the `diff_` row at
     * `off` becomes `f` minus the centroid row `center`, scaled unless the
     * scale is one; `d` is its squared norm.
     */
    static method WriteDiff(a: array<real>, off: nat, f: seq<real>, center: seq<real>, scale: real) returns (d: real)
      requires |f| == |center| && off + |f| <= a.Length
      modifies a
      ensures a[off .. off + |f|] == ScaleUnlessOne(scale, Sub(f, center))
      ensures d == Dot(a[off .. off + |f|], a[off .. off + |f|])
      ensures forall q :: 0 <= q < a.Length && !(off <= q < off + |f|) ==> a[q] == old(a[q])
    {
      SubInto(f, center, a, off);
      if scale != 1.0 {
        ScaleInPlace(scale, a, off, |f|);
      }
      d := DotSelf(a, off, |f|);
    }

    /**
     * The running `neg_min_val` and `neg_min_ind` agree with the scan `h`,
     * the index being a sample index (`base` plus the member) and -1 while unset.
     */
    static predicate Tracks(h: Hardest, base: nat, val: real, ind: int)
    {
      && h.value == val
      && (h.index < 0 ==> ind == -1)
      && (h.index >= 0 ==> ind == base + h.index)
    }

    /**
     * One step of the hard-negative scan: member `j` (sample `base + j`),
     * the one after the distances `dd`, with distance `d` becomes the running hard negative when
     * it is a negative and the value is unset or `d` is strictly smaller.
     */
    static method ScanNegative(ghost dd: seq<real>, neg: seq<nat>, j: nat, d: real, base: nat, val: real, ind: int)
      returns (val': real, ind': int)
      requires j == |dd| && Tracks(NegMinScan(dd, neg, j), base, val, ind)
      ensures Tracks(NegMinScan(dd + [d], neg, j + 1), base, val', ind')
    {
      NegMinScanPrefix(dd, dd + [d], neg, j);
      val', ind' := val, ind;
      if j in neg && (val == Unset || d < val) {
        val', ind' := d, base + j;
      }
    }

    /**
     * The distance loop of `Forward_cpu` for group `i`: every member's
     * `diff_` row and `dist_sq_` entry, and the hard-negative scan over the
     * negatives `negIds[i]` (`neg_min_val`, and `neg_min_ind` as a sample
     * index; -1 while unset).
     */
    method MineDistances(feats: seq<real>, i: nat) returns (negMinVal: real, negMinInd: int)
      requires Valid() && |feats| == (groupNum * n) * featLen && i < groupNum && |negIds| == groupNum
      modifies diff, distSq
      ensures forall j :: 0 <= j < n ==> DiffRow(i, j) == ScaleUnlessOne(scale, Sub(Member(Cfg(), feats, i, j), CenterRow(i)))
      ensures forall j :: 0 <= j < n ==> DistRow(i)[j] == Dot(DiffRow(i, j), DiffRow(i, j))
      ensures var h := NegMinScan(DistRow(i), negIds[i], n);
        && negMinVal == h.value
        && (h.index < 0 ==> negMinInd == -1)
        && (h.index >= 0 ==> negMinInd == i * n + h.index)
      ensures forall k, l :: 0 <= k < groupNum && 0 <= l < n && k != i ==> DiffRow(k, l) == old(DiffRow(k, l))
      ensures forall k :: 0 <= k < groupNum && k != i ==> DistRow(k) == old(DistRow(k))
    {
      ghost var diff0, dist0 := diff[..], distSq[..];
      ghost var lo: nat, hi: nat := (i * n) * featLen, (i * n + n) * featLen;
      var rows := GroupRows(Cfg(), feats, i);
      var base: nat := i * n;
      RowEnd(i, groupNum, n);
      ghost var ds;
      negMinVal, negMinInd, ds := MineGroup(diff, distSq, groupNum, n, featLen, i, rows, CenterRow(i), scale, negIds[i], base, lo, hi);
      GroupFrame(diff0, diff[..], groupNum, n, featLen, i, lo, hi);
      RowFrame(dist0, distSq[..], groupNum, n, i);
      assert forall j :: 0 <= j < n ==> DistRow(i)[j] == distSq[base + j];
      NegMinScanPrefix(ds, DistRow(i), negIds[i], n);
    }

    /**
     * The distance loop itself, over the buffers `diff` and `distSq` of
     * `groups` groups of `n` members with feature rows `rows`.
     */
    static method MineGroup(diff: array<real>, distSq: array<real>, groups: nat, n: nat, len: nat, i: nat,
        rows: seq<seq<real>>, center: seq<real>, scale: real, neg: seq<nat>, base: nat, ghost lo: nat, ghost hi: nat)
      returns (negMinVal: real, negMinInd: int, ghost ds: seq<real>)
      requires diff != distSq && diff.Length == (groups * n) * len && distSq.Length == groups * n && i < groups
      requires |rows| == n && Uniform(rows, len) && |center| == len
      requires lo == (i * n) * len && hi == (i * n + n) * len && base == i * n && base + n <= distSq.Length
      modifies diff, distSq
      ensures forall j :: 0 <= j < n ==> Cell(diff[..], groups, n, len, i, j) == ScaleUnlessOne(scale, Sub(rows[j], center))
      ensures |ds| == n
      ensures forall j :: 0 <= j < n ==> distSq[base + j] == ds[j] == Dot(Cell(diff[..], groups, n, len, i, j), Cell(diff[..], groups, n, len, i, j))
      ensures Tracks(NegMinScan(ds, neg, n), base, negMinVal, negMinInd)
      ensures forall q :: 0 <= q < diff.Length && !(lo <= q < hi) ==> diff[q] == old(diff[q])
      ensures forall q :: 0 <= q < distSq.Length && !(base <= q < base + n) ==> distSq[q] == old(distSq[q])
    {
      ghost var want := seq(n, l requires 0 <= l < n => ScaleUnlessOne(scale, Sub(rows[l], center)));
      ghost var diff0, dist0 := diff[..], distSq[..];
      negMinVal, negMinInd := Unset, -1;
      ds := [];
      var j := 0;
      while j < n
        invariant 0 <= j <= n && |ds| == j
        invariant forall l :: 0 <= l < j ==> Cell(diff[..], groups, n, len, i, l) == want[l]
        invariant forall q :: 0 <= q < diff.Length && !(lo <= q < hi) ==> diff[q] == diff0[q]
        invariant forall l :: 0 <= l < j ==> distSq[base + l] == ds[l] == Dot(want[l], want[l])
        invariant forall q :: 0 <= q < distSq.Length && !(base <= q < base + j) ==> distSq[q] == dist0[q]
        invariant Tracks(NegMinScan(ds, neg, j), base, negMinVal, negMinInd)
      {
        negMinVal, negMinInd, ds := MineStep(diff, distSq, groups, n, len, i, j, rows[j], center, scale, neg,
          want, diff0, dist0, ds, base, lo, hi, negMinVal, negMinInd);
        j := j + 1;
      }
    }

    /**
     * One iteration of the distance loop: the `diff_` row and the `dist_sq_`
     * entry of member `j` of group `i`, then one step of the scan.
     */
    static method MineStep(diff: array<real>, distSq: array<real>, groups: nat, n: nat, len: nat, i: nat, j: nat,
        row: seq<real>, center: seq<real>, scale: real, neg: seq<nat>,
        ghost want: seq<seq<real>>, ghost diff0: seq<real>, ghost dist0: seq<real>, ghost ds: seq<real>,
        base: nat, ghost lo: nat, ghost hi: nat, val: real, ind: int)
      returns (val': real, ind': int, ghost ds': seq<real>)
      requires diff != distSq && diff.Length == (groups * n) * len && distSq.Length == groups * n && i < groups && j < n
      requires |row| == len && |center| == len && |want| == n && want[j] == ScaleUnlessOne(scale, Sub(row, center))
      requires lo == (i * n) * len && hi == (i * n + n) * len && base == i * n && base + n <= distSq.Length
      requires |diff0| == diff.Length && |dist0| == distSq.Length && |ds| == j
      requires forall l :: 0 <= l < j ==> Cell(diff[..], groups, n, len, i, l) == want[l]
      requires forall q :: 0 <= q < diff.Length && !(lo <= q < hi) ==> diff[q] == diff0[q]
      requires forall l :: 0 <= l < j ==> distSq[base + l] == ds[l] == Dot(want[l], want[l])
      requires forall q :: 0 <= q < distSq.Length && !(base <= q < base + j) ==> distSq[q] == dist0[q]
      requires Tracks(NegMinScan(ds, neg, j), base, val, ind)
      modifies diff, distSq
      ensures |ds'| == j + 1
      ensures forall l :: 0 <= l < j + 1 ==> Cell(diff[..], groups, n, len, i, l) == want[l]
      ensures forall q :: 0 <= q < diff.Length && !(lo <= q < hi) ==> diff[q] == diff0[q]
      ensures forall l :: 0 <= l < j + 1 ==> distSq[base + l] == ds'[l] == Dot(want[l], want[l])
      ensures forall q :: 0 <= q < distSq.Length && !(base <= q < base + (j + 1)) ==> distSq[q] == dist0[q]
      ensures Tracks(NegMinScan(ds', neg, j + 1), base, val', ind')
    {
      var d := DiffStep(diff, groups, n, len, i, j, row, center, scale, want, diff0, lo, hi);
      val', ind', ds' := DistStep(distSq, n, j, d, neg, dist0, ds, base, val, ind);
    }

    /** The `diff_` half of `MineStep`: the row of member `j` is written, and `d` is its squared norm. */
    static method DiffStep(diff: array<real>, groups: nat, n: nat, len: nat, i: nat, j: nat,
        row: seq<real>, center: seq<real>, scale: real, ghost want: seq<seq<real>>, ghost diff0: seq<real>,
        ghost lo: nat, ghost hi: nat) returns (d: real)
      requires diff.Length == (groups * n) * len && i < groups && j < n
      requires |row| == len && |center| == len && |want| == n && want[j] == ScaleUnlessOne(scale, Sub(row, center))
      requires lo == (i * n) * len && hi == (i * n + n) * len && |diff0| == diff.Length
      requires forall l :: 0 <= l < j ==> Cell(diff[..], groups, n, len, i, l) == want[l]
      requires forall q :: 0 <= q < diff.Length && !(lo <= q < hi) ==> diff[q] == diff0[q]
      modifies diff
      ensures forall l :: 0 <= l < j + 1 ==> Cell(diff[..], groups, n, len, i, l) == want[l]
      ensures forall q :: 0 <= q < diff.Length && !(lo <= q < hi) ==> diff[q] == diff0[q]
      ensures d == Dot(want[j], want[j])
    {
      var off := CellStart(groups, n, len, i, j);
      ghost var cur := diff[..];
      d := WriteDiff(diff, off, row, center, scale);
      KeepOthers(cur, diff[..], groups, n, len, i, j, lo, hi);
      assert Cell(diff[..], groups, n, len, i, j) == diff[off .. off + len] == want[j];
    }

    /** The `dist_sq_` half of `MineStep`: `d` is stored for member `j` and the hard-negative scan takes it in. */
    static method DistStep(distSq: array<real>, n: nat, j: nat, d: real, neg: seq<nat>,
        ghost dist0: seq<real>, ghost ds: seq<real>, base: nat, val: real, ind: int)
      returns (val': real, ind': int, ghost ds': seq<real>)
      requires j < n && base + n <= distSq.Length && |dist0| == distSq.Length && |ds| == j
      requires forall l :: 0 <= l < j ==> distSq[base + l] == ds[l]
      requires forall q :: 0 <= q < distSq.Length && !(base <= q < base + j) ==> distSq[q] == dist0[q]
      requires Tracks(NegMinScan(ds, neg, j), base, val, ind)
      modifies distSq
      ensures ds' == ds + [d]
      ensures forall l :: 0 <= l < j + 1 ==> distSq[base + l] == ds'[l]
      ensures forall q :: 0 <= q < distSq.Length && !(base <= q < base + (j + 1)) ==> distSq[q] == dist0[q]
      ensures Tracks(NegMinScan(ds', neg, j + 1), base, val', ind')
    {
      distSq[base + j] := d;
      val', ind' := ScanNegative(ds, neg, j, d, base, val, ind);
      ds' := ds + [d];
    }
  
    /**
     * `caffe_cpu_scale` of the centroid row of group `i` by one over the
     * number of its positives.  With no positive the source multiplies the
     * zero row by `1/0`; the model leaves the zero row in place.
     */
    method ScaleCenter(i: nat)
      requires Valid() && i < groupNum && |posIds| == groupNum
      modifies posCenter
      ensures |posIds[i]| > 0 ==> CenterRow(i) == Scale(1.0 / (|posIds[i]| as real), old(CenterRow(i)))
      ensures |posIds[i]| == 0 ==> CenterRow(i) == old(CenterRow(i))
      ensures forall k :: 0 <= k < groupNum && k != i ==> CenterRow(k) == old(CenterRow(k))
    {
      var m := |posIds[i]|;
      if m > 0 {
        ScaleCenterRow(i, 1.0 / (m as real));
      }
    }

    /** `caffe_cpu_scale` of the centroid row of group `i` by `alpha`. */
    method ScaleCenterRow(i: nat, alpha: real)
      requires Valid() && i < groupNum
      modifies posCenter
      ensures CenterRow(i) == Scale(alpha, old(CenterRow(i)))
      ensures forall k :: 0 <= k < groupNum && k != i ==> CenterRow(k) == old(CenterRow(k))
    {
      var off: nat := i * featLen;
      MulLe(i + 1, groupNum, featLen);
      assert (i + 1) * featLen == off + featLen;
      ghost var before := CenterRow(i);
      assert before == posCenter[off .. off + featLen];
      ScaleInPlace(alpha, posCenter, off, featLen);
      assert CenterRow(i) == posCenter[off .. off + featLen];
      RowFrame(old(posCenter[..]), posCenter[..], groupNum, featLen, i);
    }

    /** `pos_backward[i * N + j] = true`. */
    method FlagPositive(i: nat, j: nat)
      requires Valid() && i < groupNum && j < n && |posBackward| == groupNum * n
      modifies this`posBackward
      ensures |posBackward| == groupNum * n
      ensures PosRow(i) == old(PosRow(i))[j := true]
      ensures forall k :: 0 <= k < groupNum && k != i ==> PosRow(k) == old(PosRow(k))
    {
      RowUpdate(posBackward, groupNum, n, i, j, true);
      posBackward := posBackward[i * n + j := true];
    }

    /** `neg_backward[s] = true` for the sample `s` of member `j` of group `i`. */
    method FlagNegative(s: nat, ghost i: nat, ghost j: nat)
      requires Valid() && i < groupNum && j < n && |negBackward| == groupNum * n && s == i * n + j
      modifies this`negBackward
      ensures |negBackward| == groupNum * n
      ensures NegRow(i) == old(NegRow(i))[j := true]
      ensures forall k :: 0 <= k < groupNum && k != i ==> NegRow(k) == old(NegRow(k))
    {
      RowUpdate(negBackward, groupNum, n, i, j, true);
      negBackward := negBackward[s := true];
    }

    /**
     * The margin loop of `Forward_cpu` for group `i`: every member that is
     * not a negative adds `max(d + margin - neg_min_val, 0)` and is flagged
     * in `pos_backward` when that is positive; the sum is averaged over the
     * positives.
     */
    method MarginLoss(i: nat, negMinVal: real) returns (posMdist: real)
      requires Valid() && i < groupNum && |posIds| == groupNum && |negIds| == groupNum
      requires |posBackward| == groupNum * n && |posIds[i]| > 0
      modifies this`posBackward
      ensures |posBackward| == groupNum * n
      ensures posMdist == MarginSum(DistRow(i), negIds[i], negMinVal, margin, n) / (|posIds[i]| as real)
      ensures forall j :: 0 <= j < n ==>
        PosRow(i)[j] == (old(PosRow(i))[j] || (j !in negIds[i] && Hinge(DistRow(i)[j] + margin - negMinVal) > 0.0))
      ensures forall k :: 0 <= k < groupNum && k != i ==> PosRow(k) == old(PosRow(k))
    {
      var neg := negIds[i];
      var dists := DistRow(i);
      ghost var row0 := PosRow(i);
      posMdist := 0.0;
      var j := 0;
      while j < n
        invariant 0 <= j <= n && |posBackward| == groupNum * n
        invariant posMdist == MarginSum(dists, neg, negMinVal, margin, j)
        invariant forall l :: 0 <= l < j ==>
          PosRow(i)[l] == (row0[l] || (l !in neg && Hinge(dists[l] + margin - negMinVal) > 0.0))
        invariant forall l :: j <= l < n ==> PosRow(i)[l] == row0[l]
        invariant forall k :: 0 <= k < groupNum && k != i ==> PosRow(k) == old(PosRow(k))
      {
        if j !in neg {
          var d := dists[j];
          var mdist := Hinge(d + margin - negMinVal);
          if mdist > 0.0 {
            FlagPositive(i, j);
          }
          posMdist := posMdist + mdist;
        }
        j := j + 1;
      }
      posMdist := posMdist / (|posIds[i]| as real);
    }
  
    /**
     * The rows `MineDistances` writes are the ones the specification
     * prescribes once the centroid row is the group's centroid.
     */
    lemma RowsMatchSpec(feats: seq<real>, labels: seq<real>, i: nat)
      requires Valid() && Shaped(Cfg(), feats, labels) && i < groupNum
      requires CenterRow(i) == CenterOf(Cfg(), feats, labels, i)
      requires forall j :: 0 <= j < n ==> DiffRow(i, j) == ScaleUnlessOne(scale, Sub(Member(Cfg(), feats, i, j), CenterRow(i)))
      requires forall j :: 0 <= j < n ==> DistRow(i)[j] == Dot(DiffRow(i, j), DiffRow(i, j))
      ensures forall j :: 0 <= j < n ==> DiffRow(i, j) == DiffOf(Cfg(), feats, labels, i, j)
      ensures DistRow(i) == DistsOf(Cfg(), feats, labels, i)
    {
      var c, g, x := Cfg(), GroupLabels(Cfg(), labels, i), GroupRows(Cfg(), feats, i);
      var dd := DistsOf(c, feats, labels, i);
      forall j | 0 <= j < n
        ensures DiffRow(i, j) == DiffOf(c, feats, labels, i, j)
        ensures DistRow(i)[j] == dd[j]
      {
        assert x[j] == Member(c, feats, i, j);
      }
    }

    /**
     * The first part of an iteration of the group loop of `Forward_cpu`:
     * the anchor, the partition and the centroid of group `i`.
     */
    method Partition(feats: seq<real>, labels: seq<real>, i: nat)
      requires Valid() && Sized() && Shaped(Cfg(), feats, labels) && i < groupNum
      requires posIds[i] == [] && negIds[i] == [] && CenterRow(i) == Zeros(featLen)
      modifies this`posIds, this`negIds, posCenter
      ensures Sized()
      ensures posIds == old(posIds)[i := Positives(GroupLabels(Cfg(), labels, i))]
      ensures negIds == old(negIds)[i := Negatives(GroupLabels(Cfg(), labels, i))]
      ensures CenterRow(i) == CenterOf(Cfg(), feats, labels, i)
      ensures forall k :: 0 <= k < groupNum && k != i ==> CenterRow(k) == old(CenterRow(k))
    {
      ghost var g := GroupLabels(Cfg(), labels, i);
      var anchor := FindAnchor(labels, i);
      CollectGroup(feats, labels, i, anchor);
      PositivesBelow(g);
      ScaleCenter(i);
    }

    /**
     * The second part, for a contributing group `i`: distances, the hard
     * negative, the margin terms and the flags; `term` is `pos_mdist`.
     */
    method Score(feats: seq<real>, labels: seq<real>, i: nat) returns (term: real)
      requires Valid() && Sized() && Shaped(Cfg(), feats, labels) && i < groupNum
      requires Contributes(GroupLabels(Cfg(), labels, i))
      requires posIds[i] == Positives(GroupLabels(Cfg(), labels, i))
      requires negIds[i] == Negatives(GroupLabels(Cfg(), labels, i))
      requires CenterRow(i) == CenterOf(Cfg(), feats, labels, i)
      requires forall j :: 0 <= j < n ==> !PosRow(i)[j] && !NegRow(i)[j]
      modifies this`posBackward, this`negBackward, diff, distSq
      ensures Sized()
      ensures DistRow(i) == DistsOf(Cfg(), feats, labels, i)
      ensures forall j :: 0 <= j < n ==> DiffRow(i, j) == DiffOf(Cfg(), feats, labels, i, j)
      ensures forall j :: 0 <= j < n ==> PosRow(i)[j] == PosFlagOf(Cfg(), feats, labels, i, j)
      ensures forall j :: 0 <= j < n ==> NegRow(i)[j] == NegFlagOf(Cfg(), feats, labels, i, j)
      ensures term == TermOf(Cfg(), feats, labels, i)
      ensures forall k :: 0 <= k < groupNum && k != i ==>
        DistRow(k) == old(DistRow(k)) && PosRow(k) == old(PosRow(k)) && NegRow(k) == old(NegRow(k))
      ensures forall k, l :: 0 <= k < groupNum && 0 <= l < n && k != i ==> DiffRow(k, l) == old(DiffRow(k, l))
    {
      var g := GroupLabels(Cfg(), labels, i);
      var negMinVal, negMinInd := MineDistances(feats, i);
      RowsMatchSpec(feats, labels, i);
      ghost var dd := DistsOf(Cfg(), feats, labels, i);
      assert NegMinScan(DistRow(i), negIds[i], n) == HardNegative(g, dd);
      HardNegativeIsFirstClosest(g, dd);
      term := FlagGroup(g, dd, i, negMinVal, negMinInd);
    }

    /**
     * The flagging half of `Score`, for a contributing group `i` with labels
     * `g` and distances `dd` and the hard negative found by the scan: the
     * hard negative is flagged in `neg_backward`, the margin loop flags the
     * violating positives, and `term` is the group's term.
     */
    method FlagGroup(g: seq<real>, ghost dd: seq<real>, i: nat, negMinVal: real, negMinInd: int) returns (term: real)
      requires Valid() && Sized() && i < groupNum && |g| == n
      requires Distances(g, dd) && Contributes(g) && DistRow(i) == dd
      requires posIds[i] == Positives(g) && negIds[i] == Negatives(g)
      requires negMinVal == HardNegative(g, dd).value && negMinInd == i * n + HardNegative(g, dd).index
      requires forall j :: 0 <= j < n ==> !PosRow(i)[j] && !NegRow(i)[j]
      modifies this`posBackward, this`negBackward
      ensures Sized()
      ensures forall j :: 0 <= j < n ==> PosRow(i)[j] == PosFlag(g, dd, margin, j)
      ensures forall j :: 0 <= j < n ==> NegRow(i)[j] == NegFlag(g, dd, j)
      ensures term == GroupTerm(g, dd, margin)
      ensures forall k :: 0 <= k < groupNum && k != i ==> PosRow(k) == old(PosRow(k)) && NegRow(k) == old(NegRow(k))
    {
      HardNegativeIsFirstClosest(g, dd);
      ghost var hj: nat := HardNegative(g, dd).index;
      var s: nat := negMinInd;
      FlagNegative(s, i, hj);
      assert forall j :: 0 <= j < n ==> NegRow(i)[j] == NegFlag(g, dd, j);
      term := MarginLoss(i, negMinVal);
      assert forall j :: 0 <= j < n ==> PosRow(i)[j] == PosFlag(g, dd, margin, j);
    }

    /**
     * One iteration of the group loop of `Forward_cpu`.  `term` is what the
     * group adds to `loss` and `counted` whether it adds one to `cnt`.
     */
    method ProcessGroup(feats: seq<real>, labels: seq<real>, i: nat) returns (term: real, counted: bool)
      requires Valid() && Sized() && Shaped(Cfg(), feats, labels) && i < groupNum && Pending(i)
      modifies this`posIds, this`negIds, this`posBackward, this`negBackward, posCenter, diff, distSq
      ensures Sized() && Done(feats, labels, i)
      ensures !Contributes(GroupLabels(Cfg(), labels, i)) ==>
        DistRow(i) == old(DistRow(i)) && forall j :: 0 <= j < n ==> DiffRow(i, j) == old(DiffRow(i, j))
      ensures counted == Contributes(GroupLabels(Cfg(), labels, i))
      ensures term == TermOf(Cfg(), feats, labels, i)
      ensures forall k :: 0 <= k < groupNum && k != i ==>
        && posIds[k] == old(posIds[k]) && negIds[k] == old(negIds[k])
        && CenterRow(k) == old(CenterRow(k)) && DistRow(k) == old(DistRow(k))
        && PosRow(k) == old(PosRow(k)) && NegRow(k) == old(NegRow(k))
      ensures forall k, l :: 0 <= k < groupNum && 0 <= l < n && k != i ==> DiffRow(k, l) == old(DiffRow(k, l))
    {
      ghost var g := GroupLabels(Cfg(), labels, i);
      Partition(feats, labels, i);
      PartitionOfGroup(g);
      if |negIds[i]| == 0 || |posIds[i]| <= 1 {
        term, counted := 0.0, false;
        return;
      }
      term := Score(feats, labels, i);
      counted := true;
    }

    /**
     * The start of `Forward_cpu`: empty index lists, cleared flags and a
     * zero centroid buffer, so that every group is pending.
     */
    method Reset()
      requires Valid()
      modifies this`posIds, this`negIds, this`posBackward, this`negBackward, posCenter
      ensures Sized()
      ensures forall k :: 0 <= k < groupNum ==> Pending(k)
    {
      posIds := seq(groupNum, _ => []);
      negIds := seq(groupNum, _ => []);
      posBackward := seq(groupNum * n, _ => false);
      negBackward := seq(groupNum * n, _ => false);
      ZeroCenter(posCenter, groupNum, featLen);
    }

    /** The `caffe_set` that zeroes the centroid buffer `center`, of `len * groups` elements: every row becomes zero. */
    static method ZeroCenter(center: array<real>, groups: nat, len: nat)
      requires center.Length == groups * len
      modifies center
      ensures forall k :: 0 <= k < groups ==> Row(center[..], groups, len, k) == Zeros(len)
    {
      assert len * groups == center.Length;
      Set(center, 0, len * groups, 0.0);
      forall k | 0 <= k < groups
        ensures Row(center[..], groups, len, k) == Zeros(len)
      {
        var r := Row(center[..], groups, len, k);
        assert forall q :: 0 <= q < len ==> r[q] == 0.0;
      }
    }

    /**
     * How far the group loop of `Forward_cpu` has got: `sum` and `cnt` are
     * the running loss and count over the groups before `i`, those groups
     * are done and the later ones pending, and the `diff_` and `dist_sq_`
     * rows of every group not yet reached, or skipped, still hold what they
     * held at the start (`diff0`, `dist0`).
     */
    ghost predicate ForwardProgress(feats: seq<real>, labels: seq<real>, dist0: seq<real>, diff0: seq<real>,
                                    i: nat, sum: real, cnt: nat)
      reads this, posCenter, diff, distSq
    {
      && Valid() && Sized() && Shaped(Cfg(), feats, labels) && i <= groupNum
      && |dist0| == distSq.Length && |diff0| == diff.Length
      && sum == LossSum(Cfg(), feats, labels, i) && cnt == ValidCount(Cfg(), labels, i)
      && (forall k :: 0 <= k < i ==> Done(feats, labels, k))
      && (forall k :: i <= k < groupNum ==> Pending(k))
      && (forall k :: 0 <= k < groupNum && (i <= k || !Contributes(GroupLabels(Cfg(), labels, k))) ==>
            DistRow(k) == Row(dist0, groupNum, n, k))
      && (forall k, l :: 0 <= k < groupNum && 0 <= l < n && (i <= k || !Contributes(GroupLabels(Cfg(), labels, k))) ==>
            DiffRow(k, l) == Cell(diff0, groupNum, n, featLen, k, l))
    }

    /** Before the group loop of `Forward_cpu`, with every group pending, no group is done. */
    lemma NothingDone(feats: seq<real>, labels: seq<real>, dist0: seq<real>, diff0: seq<real>)
      requires Valid() && Sized() && Shaped(Cfg(), feats, labels)
      requires forall k :: 0 <= k < groupNum ==> Pending(k)
      requires dist0 == distSq[..] && diff0 == diff[..]
      ensures ForwardProgress(feats, labels, dist0, diff0, 0, 0.0, 0)
    {
    }

    /**
     * One turn of the group loop of `Forward_cpu`: group `i` adds its term to
     * the running `loss` (`sum`) and, when it contributes, one to `cnt`.
     */
    method Advance(feats: seq<real>, labels: seq<real>, i: nat, ghost dist0: seq<real>, ghost diff0: seq<real>,
                   sum: real, cnt: nat) returns (sum': real, cnt': nat)
      requires i < groupNum && ForwardProgress(feats, labels, dist0, diff0, i, sum, cnt)
      modifies this`posIds, this`negIds, this`posBackward, this`negBackward, posCenter, diff, distSq
      ensures ForwardProgress(feats, labels, dist0, diff0, i + 1, sum', cnt')
    {
      var term, counted := ProcessGroup(feats, labels, i);
      sum' := sum + term;
      cnt' := if counted then cnt + 1 else cnt;
      forall k | 0 <= k < i
        ensures Done(feats, labels, k)
      {
        assert old(Done(feats, labels, k));
        assert posIds[k] == old(posIds[k]) && negIds[k] == old(negIds[k]);
        assert CenterRow(k) == old(CenterRow(k)) && DistRow(k) == old(DistRow(k));
        assert PosRow(k) == old(PosRow(k)) && NegRow(k) == old(NegRow(k));
        assert forall l :: 0 <= l < n ==> DiffRow(k, l) == old(DiffRow(k, l));
      }
      forall k | i < k < groupNum
        ensures Pending(k)
      {
        assert old(Pending(k));
        assert posIds[k] == old(posIds[k]) && negIds[k] == old(negIds[k]);
        assert CenterRow(k) == old(CenterRow(k));
        assert PosRow(k) == old(PosRow(k)) && NegRow(k) == old(NegRow(k));
      }
      forall k | 0 <= k < groupNum && (i + 1 <= k || !Contributes(GroupLabels(Cfg(), labels, k)))
        ensures DistRow(k) == Row(dist0, groupNum, n, k)
        ensures forall l :: 0 <= l < n ==> DiffRow(k, l) == Cell(diff0, groupNum, n, featLen, k, l)
      {
        assert old(DistRow(k)) == Row(dist0, groupNum, n, k);
        assert forall l :: 0 <= l < n ==> old(DiffRow(k, l)) == Cell(diff0, groupNum, n, featLen, k, l);
      }
    }

    /**
     * `Forward_cpu`: every group is processed in turn, and the loss is the
     * running sum of the contributing groups' terms over their number
     * (`None` where the source divides by a zero count).  Afterwards every
     * group holds its partition, centroid and flags, a contributing group
     * its `diff_` rows and distances, and a skipped group's rows of `diff_`
     * and `dist_sq_` are left as they were.
     */
    method Forward(feats: seq<real>, labels: seq<real>) returns (loss: Option<real>)
      requires Valid() && Shaped(Cfg(), feats, labels)
      modifies this`posIds, this`negIds, this`posBackward, this`negBackward, posCenter, diff, distSq
      ensures Sized()
      ensures loss == Loss(Cfg(), feats, labels)
      ensures forall k :: 0 <= k < groupNum ==> Done(feats, labels, k)
      ensures forall k :: 0 <= k < groupNum && !Contributes(GroupLabels(Cfg(), labels, k)) ==>
        DistRow(k) == old(DistRow(k))
      ensures forall k, l :: 0 <= k < groupNum && 0 <= l < n && !Contributes(GroupLabels(Cfg(), labels, k)) ==>
        DiffRow(k, l) == old(DiffRow(k, l))
    {
      ghost var dist0, diff0 := distSq[..], diff[..];
      Reset();
      NothingDone(feats, labels, dist0, diff0);
      var sum := 0.0;
      var cnt: nat := 0;
      var i := 0;
      while i < groupNum
        invariant ForwardProgress(feats, labels, dist0, diff0, i, sum, cnt)
      {
        sum, cnt := Advance(feats, labels, i, dist0, diff0, sum, cnt);
        i := i + 1;
      }
      if cnt == 0 {
        loss := None;
      } else {
        loss := Some(sum / (cnt as real));
      }
      forall k | 0 <= k < groupNum && !Contributes(GroupLabels(Cfg(), labels, k))
        ensures DistRow(k) == old(DistRow(k))
        ensures forall l :: 0 <= l < n ==> DiffRow(k, l) == old(DiffRow(k, l))
      {
        assert DistRow(k) == Row(dist0, groupNum, n, k);
        assert forall l :: 0 <= l < n ==> DiffRow(k, l) == Cell(diff0, groupNum, n, featLen, k, l);
      }
    }

    /** The `bottom_diff` row of member `j` of group `i`. */
    function GradCell(bottomDiff: array<real>, i: nat, j: nat): (r: seq<real>)
      reads bottomDiff
      requires Valid() && bottomDiff.Length == (groupNum * n) * featLen && i < groupNum && j < n
      ensures |r| == featLen
    {
      Cell(bottomDiff[..], groupNum, n, featLen, i, j)
    }

    /** The gradient row `Backward_cpu` owes member `j` of group `i`, from its flags and its `diff_` row. */
    function GradientRow(alpha: real, i: nat, j: nat): (r: seq<real>)
      reads this, diff
      requires Valid() && Sized() && i < groupNum && j < n
      ensures |r| == featLen
    {
      Gradient(scale, alpha, PosRow(i)[j], NegRow(i)[j], DiffRow(i, j))
    }

    /**
     * How far `Backward_cpu` has got through `bottom_diff` (here `g`): the
     * members before member `j` of group `i`, in row-major order, hold their
     * gradient rows and every later member still holds its zero row.
     */
    ghost predicate GradProgress(g: seq<real>, alpha: real, i: nat, j: nat)
      reads this, diff
    {
      && Valid() && Sized() && |g| == (groupNum * n) * featLen && i <= groupNum && j <= n
      && forall k, l :: 0 <= k < groupNum && 0 <= l < n ==>
           Cell(g, groupNum, n, featLen, k, l) ==
             (if k < i || (k == i && l < j) then GradientRow(alpha, k, l) else Zeros(featLen))
    }

    /**
     * The body of the inner loop of `Backward_cpu`: a flagged positive gets
     * `scale * alpha` times its `diff_` row, a hard negative
     * `-scale * alpha` times it (`caffe_cpu_axpby` with `beta == 0`), and any
     * other member keeps its zero row.  No other member's row changes.
     */
    method WriteGradient(alpha: real, i: nat, j: nat, bottomDiff: array<real>)
      requires i < groupNum && j < n && bottomDiff != diff
      requires GradProgress(bottomDiff[..], alpha, i, j)
      modifies bottomDiff
      ensures GradProgress(bottomDiff[..], alpha, i, j + 1)
    {
      ghost var before := bottomDiff[..];
      var off := CellStart(groupNum, n, featLen, i, j);
      var row := DiffRow(i, j);
      if PosRow(i)[j] {
        AxpbyZero(scale * alpha, row, bottomDiff, off);
      } else if NegRow(i)[j] {
        AxpbyZero(-scale * alpha, row, bottomDiff, off);
      } else {
        assert bottomDiff[off .. off + featLen] == Cell(before, groupNum, n, featLen, i, j);
      }
      assert Cell(bottomDiff[..], groupNum, n, featLen, i, j) == GradientRow(alpha, i, j);
      CellFrame(before, bottomDiff[..], groupNum, n, featLen, i, j);
    }

    /** The inner loop of `Backward_cpu` for group `i`. */
    method GroupGradient(alpha: real, i: nat, bottomDiff: array<real>)
      requires i < groupNum && bottomDiff != diff
      requires GradProgress(bottomDiff[..], alpha, i, 0)
      modifies bottomDiff
      ensures GradProgress(bottomDiff[..], alpha, i + 1, 0)
    {
      var j := 0;
      while j < n
        invariant j <= n
        invariant GradProgress(bottomDiff[..], alpha, i, j)
      {
        WriteGradient(alpha, i, j, bottomDiff);
        j := j + 1;
      }
    }

    /** The `caffe_set` that zeroes `bottom_diff` before the loops of `Backward_cpu`. */
    method ClearGradient(alpha: real, bottomDiff: array<real>)
      requires Valid() && Sized() && bottomDiff.Length == (groupNum * n) * featLen && bottomDiff != diff
      modifies bottomDiff
      ensures GradProgress(bottomDiff[..], alpha, 0, 0)
    {
      Set(bottomDiff, 0, bottomDiff.Length, 0.0);
      forall k, l | 0 <= k < groupNum && 0 <= l < n
        ensures Cell(bottomDiff[..], groupNum, n, featLen, k, l) == Zeros(featLen)
      {
        var r := Cell(bottomDiff[..], groupNum, n, featLen, k, l);
        assert forall q :: 0 <= q < featLen ==> r[q] == 0.0;
      }
    }

    /**
     * `Backward_cpu`: `ok` is false where one of its two checks fails (the
     * feature width, the element count of the bottom blob).  With
     * `propagate_down[0]`, `bottom_diff` is zeroed and every member's row
     * becomes its gradient row; otherwise nothing is written.
     */
    method Backward(topDiff: real, propagateDown: bool, bottomChannels: nat, bottomDiff: array<real>) returns (ok: bool)
      requires Valid() && Sized() && bottomDiff != diff
      modifies bottomDiff
      ensures ok <==> bottomChannels == featLen && bottomDiff.Length == (groupNum * n) * featLen
      ensures !(ok && propagateDown) ==> bottomDiff[..] == old(bottomDiff[..])
      ensures ok && propagateDown ==> forall i, j :: 0 <= i < groupNum && 0 <= j < n ==>
        GradCell(bottomDiff, i, j) == GradientRow(Alpha(Cfg(), topDiff), i, j)
    {
      var alpha := Alpha(Cfg(), topDiff);
      if featLen != bottomChannels || (n * groupNum) * featLen != bottomDiff.Length {
        assert (n * groupNum) * featLen == (groupNum * n) * featLen;
        return false;
      }
      ok := true;
      if !propagateDown {
        return;
      }
      ClearGradient(alpha, bottomDiff);
      var i := 0;
      while i < groupNum
        invariant i <= groupNum
        invariant GradProgress(bottomDiff[..], alpha, i, 0)
      {
        GroupGradient(alpha, i, bottomDiff);
        i := i + 1;
      }
    }

    /**
     * After a forward pass, the row Backward writes for a member is the
     * gradient the specification prescribes for it: only the flagged members
     * of contributing groups receive one.
     */
    lemma BackwardAfterForward(feats: seq<real>, labels: seq<real>, topDiff: real, i: nat, j: nat)
      requires Valid() && Sized() && Shaped(Cfg(), feats, labels) && i < groupNum && j < n
      requires Done(feats, labels, i)
      ensures GradientRow(Alpha(Cfg(), topDiff), i, j) == GradientOf(Cfg(), feats, labels, topDiff, i, j)
    {
      var g, dd := GroupLabels(Cfg(), labels, i), DistsOf(Cfg(), feats, labels, i);
      ExactlyOneHardNegative(g, dd, margin);
    }
  }
}
