/**
 * The aggregate layer: the top blob holds, per channel, the sum of that
 * channel over all samples of the batch.  A bottom blob of `num` samples with
 * `channels` channels is row-major: channel `i` of sample `j` sits at
 * `j * channels + i`.
 */
module Aggregate {
  import opened Flat
  import opened Vectors
  import opened Blobs

  /** Channel `i` of every sample, in sample order. */
  function Column(bottom: seq<real>, num: nat, channels: nat, i: nat): (col: seq<real>)
    requires |bottom| == num * channels && i < channels
    ensures |col| == num
    ensures forall j :: 0 <= j < num ==> col[j] == Row(bottom, num, channels, j)[i]
  {
    seq(num, j requires 0 <= j < num => Row(bottom, num, channels, j)[i])
  }

  /** The running `sum` of channel `i` over the samples before `k`, added in ascending order. */
  function ChannelSum(bottom: seq<real>, num: nat, channels: nat, i: nat, k: nat): real
    requires |bottom| == num * channels && i < channels && k <= num
  {
    if k == 0 then 0.0 else ChannelSum(bottom, num, channels, i, k - 1) + Row(bottom, num, channels, k - 1)[i]
  }

  /** What `Forward_cpu` leaves in the top blob: one sum per channel. */
  function Aggregated(bottom: seq<real>, num: nat, channels: nat): (top: seq<real>)
    requires |bottom| == num * channels
    ensures |top| == channels
  {
    seq(channels, i requires 0 <= i < channels => ChannelSum(bottom, num, channels, i, num))
  }

  /** The running sum is the sum of the prefix of the channel's column. */
  lemma {:induction false} ChannelSumIsColumnSum(bottom: seq<real>, num: nat, channels: nat, i: nat, k: nat)
    requires |bottom| == num * channels && i < channels && k <= num
    ensures ChannelSum(bottom, num, channels, i, k) == Sum(Column(bottom, num, channels, i)[..k])
  {
    if k > 0 {
      var col := Column(bottom, num, channels, i);
      ChannelSumIsColumnSum(bottom, num, channels, i, k - 1);
      assert col[..k][..k - 1] == col[..k - 1];
    }
  }

  /** Each output is the sum of its channel's column. */
  lemma AggregatedIsColumnSums(bottom: seq<real>, num: nat, channels: nat)
    requires |bottom| == num * channels
    ensures forall i :: 0 <= i < channels ==>
      Aggregated(bottom, num, channels)[i] == Sum(Column(bottom, num, channels, i))
  {
    forall i | 0 <= i < channels
      ensures Aggregated(bottom, num, channels)[i] == Sum(Column(bottom, num, channels, i))
    {
      ChannelSumIsColumnSum(bottom, num, channels, i, num);
      assert Column(bottom, num, channels, i)[..num] == Column(bottom, num, channels, i);
    }
  }

  /** The sum of a channel reads only that channel's column of the input. */
  lemma {:induction false} ChannelSumReadsOnlyItsColumn(a: seq<real>, b: seq<real>, num: nat, channels: nat, i: nat, k: nat)
    requires |a| == |b| == num * channels && i < channels && k <= num
    requires Column(a, num, channels, i) == Column(b, num, channels, i)
    ensures ChannelSum(a, num, channels, i, k) == ChannelSum(b, num, channels, i, k)
  {
    if k > 0 {
      ChannelSumReadsOnlyItsColumn(a, b, num, channels, i, k - 1);
      assert Column(a, num, channels, i)[k - 1] == Column(b, num, channels, i)[k - 1];
    }
  }

  /** Aggregation is additive: the sums of a sum of batches are the sums of the summands. */
  lemma {:induction false} ChannelSumAdditive(a: seq<real>, b: seq<real>, num: nat, channels: nat, i: nat, k: nat)
    requires |a| == |b| == num * channels && i < channels && k <= num
    ensures ChannelSum(Add(a, b), num, channels, i, k)
      == ChannelSum(a, num, channels, i, k) + ChannelSum(b, num, channels, i, k)
  {
    if k > 0 {
      ChannelSumAdditive(a, b, num, channels, i, k - 1);
      var q := (k - 1) * channels + i;
      assert Row(Add(a, b), num, channels, k - 1)[i] == Add(a, b)[q] == a[q] + b[q];
    }
  }

  /** The output of a batch of one sample is that sample. */
  lemma SingleSampleIsCopied(bottom: seq<real>, channels: nat)
    requires |bottom| == 1 * channels
    ensures Aggregated(bottom, 1, channels) == bottom
  {
    var top := Aggregated(bottom, 1, channels);
    forall i | 0 <= i < channels
      ensures top[i] == bottom[i]
    {
      assert ChannelSum(bottom, 1, channels, i, 0) == 0.0;
      assert Row(bottom, 1, channels, 0)[i] == bottom[0 * channels + i];
    }
  }

  class AggregateLayer {
    /** `num_channels_` and `num_images_`, recorded by `LayerSetUp`. */
    const numChannels: nat
    const numImages: nat

    /** `LayerSetUp`: records the channel and sample counts of the bottom blob. */
    constructor (bottom: Shape)
      ensures numChannels == bottom.channels && numImages == bottom.num
    {
      numChannels, numImages := bottom.channels, bottom.num;
    }

    /** `Reshape`: a single `1 x num_channels_ x 1 x 1` output holding one value per channel. */
    method Reshape() returns (top: Shape)
      ensures top.num == 1 && top.channels == numChannels && top.height == 1 && top.width == 1
      ensures Count(top) == numChannels
    {
      top := Shape(1, numChannels, 1, 1);
    }

    /**
     * The nested loops of `Forward_cpu` over a bottom blob of `num` samples
     * of `channels` channels: a channel's running sum enters `tmp` when its
     * last sample has been added, so an empty batch leaves `tmp` empty.
     */
    static method SumChannels(bottom: seq<real>, num: nat, channels: nat) returns (tmp: seq<real>)
      requires |bottom| == num * channels
      ensures num > 0 ==> tmp == Aggregated(bottom, num, channels)
      ensures num == 0 ==> tmp == []
    {
      tmp := [];
      var i := 0;
      while i < channels
        invariant 0 <= i <= channels
        invariant num > 0 ==> tmp == Aggregated(bottom, num, channels)[..i]
        invariant num == 0 ==> tmp == []
      {
        ghost var pre := tmp;
        var sum := 0.0;
        var j := 0;
        while j < num
          invariant 0 <= j <= num
          invariant sum == ChannelSum(bottom, num, channels, i, j)
          invariant tmp == if 0 < num && j == num then pre + [sum] else pre
        {
          RowBound(j, i, num, channels);
          var idx := j * channels + i;
          sum := sum + bottom[idx];
          if j == num - 1 {
            tmp := tmp + [sum];
          }
          j := j + 1;
        }
        assert num > 0 ==> Aggregated(bottom, num, channels)[..i + 1] == Aggregated(bottom, num, channels)[..i] + [sum];
        i := i + 1;
      }
    }

    /**
     * `Forward_cpu`: the channel sums, then the copy `top_data[i] = tmp[i]`.
     * With an empty batch and at least one channel that copy reads `tmp[0]`
     * out of range; the model reports it as `ok == false` with nothing
     * written.
     */
    method Forward(bottom: seq<real>, num: nat, channels: nat, top: array<real>) returns (ok: bool)
      requires |bottom| == num * channels && top.Length == channels
      modifies top
      ensures ok <==> num > 0 || channels == 0
      ensures ok ==> top[..] == Aggregated(bottom, num, channels)
      ensures !ok ==> top[..] == old(top[..])
    {
      var tmp := SumChannels(bottom, num, channels);
      var i := 0;
      while i < channels
        invariant 0 <= i <= channels
        invariant i > 0 ==> |tmp| == channels
        invariant forall q :: 0 <= q < i ==> top[q] == tmp[q]
        invariant forall q :: i <= q < channels ==> top[q] == old(top[q])
      {
        if i >= |tmp| {
          return false;
        }
        top[i] := tmp[i];
        i := i + 1;
      }
      ok := true;
    }
  }
}
