# Caffe layers: coupled cluster loss, aggregate, feature extrapolating

This project models three Caffe layers, with Caffe's `Dtype` arithmetic
replaced by exact `real` arithmetic.

- **Coupled cluster loss** (`CoupledClusterLoss`, reference definitions in
  `CoupledClusterSpec`). A batch is cut into `group_num` groups of `N`
  samples. Forward does four things for each group:
  - It picks an anchor label, the first label that repeats an earlier one.
  - It splits the members into positives (those with the anchor label) and
    negatives.
  - It averages the positive feature rows into a centroid and writes every
    member's scaled offset to `diff_` and squared distance to `dist_sq_`.
  - It finds the hard negative (the closest negative), flags it and the
    margin-violating positives, and adds the averaged hinge loss.

  Groups without two positives and one negative are skipped. The loss is
  the sum over contributing groups divided by their count. Backward writes
  `±scale * alpha * diff_` to the rows of the flagged samples and zero
  everywhere else.
- **Aggregate** (`Aggregate`). Forward sums a `num x channels x 1 x 1` blob over its
  samples into a `1 x channels x 1 x 1` blob.
- **Feature extrapolating** (`FeatureExtrapolating`, reference definitions
  in `FeatureExtrapolatingSpec`). The layer covers `num_scale_base` base
  scales with `(num_scale_base - 1) * num_per_octave + 1` scales.
  - Reshape builds four tables: the interpolated scales, the real-scale
    flags, the nearest base scale of every scale, and the rescaling factors.
  - Forward copies the nearest base-scale image for a real scale. For any
    other scale it resamples that image bilinearly by the rescaling factor.
  - For every output pixel it records four (source index, weight) pairs in
    an eight-channel trace blob. An out-of-range pixel gets `-1` indices and
    zero weights.

The layers' state follows the source:
- Buffers the layers own are `array<real>` fields: `pos_center_`, `diff_`,
  `dist_sq_` and `trace_`.
- Blobs a pass writes are `array<real>` parameters.
- Index lists, flags and tables are `seq` fields that the methods reassign.
- The source's loops are `while` loops, except the two neighbour loops of
  the bilinear branch, which are `for` loops over `0 to 2`. Each loop is
  proved against a reference function of the inputs, through a progress
  predicate:
  - `ForwardProgress`, `Collected` and `GradProgress` in the loss layer;
  - `GridProgress`, `PlaneProgress`, `ChannelsProgress` and
    `SamplesProgress` in the extrapolating layer.

Flat buffers are read as rows and cells with the helpers in `Flat`. Element
arithmetic is in `Vectors`, and the `caffe_*` routines the layers call are in
`Blas`.

## Model

| member | source | states |
|---|---|---|
| CoupledClusterLoss.SetUp | coupled_cluster_loss/coupled_cluster_loss_layer.cpp:13-38 | Set-up succeeds exactly when there are 2 bottoms and 1 top, N > 0, num is a multiple of N, both inputs have the same num, the features are C x 1 x 1 and the labels 1 x 1 x 1. On success group_num * N == num, feat_len == C, and margin and scale are copied. A refusal names the first check that fails, in the order blob counts, zero N, multiple of N, equal num, flat features, scalar labels |
| CoupledClusterLoss.SetUpNeedsWholeGroups | coupled_cluster_loss/coupled_cluster_loss_layer.cpp:22-23 | An accepted batch holds a whole number of groups |
| CoupledClusterLoss.CoupledClusterLossLayer.constructor | coupled_cluster_loss/coupled_cluster_loss_layer.cpp:35-37 | The buffers get the shapes group_num x feat_len, (N * group_num) x feat_len and N * group_num, as three distinct fresh arrays |
| CoupledClusterLoss.CoupledClusterLossLayer.Reshape | coupled_cluster_loss/coupled_cluster_loss_layer.cpp:41-45 | Accepts exactly when features and labels have the same number of samples and that number is N * group_num |
| CoupledClusterLoss.CoupledClusterLossLayer.FindAnchor | coupled_cluster_loss/coupled_cluster_loss_layer.cpp:65-75 | The label scan with its `std::set` returns the group's anchor: the first repeated label, or -1 |
| CoupledClusterLoss.CoupledClusterLossLayer.AddToCenter | coupled_cluster_loss/coupled_cluster_loss_layer.cpp:81 | Adding a feature row into centroid row i changes row i into old row + feature and leaves every other row as it was |
| CoupledClusterLoss.CoupledClusterLossLayer.CollectStep | coupled_cluster_loss/coupled_cluster_loss_layer.cpp:78-84 | One turn of the partition loop keeps the invariant: the lists hold the selections of the first j + 1 members and the centroid row holds the sum of their positive rows |
| CoupledClusterLoss.CoupledClusterLossLayer.CollectGroup | coupled_cluster_loss/coupled_cluster_loss_layer.cpp:78-84 | pos_ids[i] and neg_ids[i] become the members whose label equals / differs from the anchor, in order. Centroid row i becomes the sum of the positive rows. No other group's ids or centroid change |
| CoupledClusterLoss.CoupledClusterLossLayer.WriteDiff | coupled_cluster_loss/coupled_cluster_loss_layer.cpp:95-98 | The diff row becomes scale * (feature - centroid), skipping the scaling when scale == 1. The result is that row's squared norm. Nothing outside the row changes |
| CoupledClusterLoss.CoupledClusterLossLayer.ScanNegative | coupled_cluster_loss/coupled_cluster_loss_layer.cpp:102-105 | One step of the hard-negative test (a negative that is the first seen or strictly closer replaces the current one) follows the reference scan |
| CoupledClusterLoss.CoupledClusterLossLayer.MineDistances | coupled_cluster_loss/coupled_cluster_loss_layer.cpp:93-107 | Every member of group i gets its scaled offset in diff_ and its squared distance in dist_sq_. The returned (neg_min_val, neg_min_ind) is the reference scan's result, with the index made global. Other groups' rows are unchanged |
| CoupledClusterLoss.CoupledClusterLossLayer.MineGroup | coupled_cluster_loss/coupled_cluster_loss_layer.cpp:93-107 | The distance loop over the arrays: every diff cell and distance of the group is written as specified, the scan is tracked, and nothing outside the group's range changes |
| CoupledClusterLoss.CoupledClusterLossLayer.MineStep | coupled_cluster_loss/coupled_cluster_loss_layer.cpp:93-107 | One turn of the distance loop extends the invariant from j members to j + 1 |
| CoupledClusterLoss.CoupledClusterLossLayer.DiffStep | coupled_cluster_loss/coupled_cluster_loss_layer.cpp:95-98 | Member j's diff row is written, earlier rows and everything outside the group stay, and d is the new row's squared norm |
| CoupledClusterLoss.CoupledClusterLossLayer.DistStep | coupled_cluster_loss/coupled_cluster_loss_layer.cpp:101-105 | d is stored as member j's distance and the hard-negative scan takes it in |
| CoupledClusterLoss.CoupledClusterLossLayer.ScaleCenter | coupled_cluster_loss/coupled_cluster_loss_layer.cpp:85 | With positives, centroid row i is scaled by one over their count. Without any, it is left as the zero sum |
| CoupledClusterLoss.CoupledClusterLossLayer.ScaleCenterRow | coupled_cluster_loss/coupled_cluster_loss_layer.cpp:85 | Centroid row i is multiplied by alpha and no other row changes |
| CoupledClusterLoss.CoupledClusterLossLayer.FlagPositive | coupled_cluster_loss/coupled_cluster_loss_layer.cpp:117 | Sets exactly member j's pos_backward flag of group i |
| CoupledClusterLoss.CoupledClusterLossLayer.FlagNegative | coupled_cluster_loss/coupled_cluster_loss_layer.cpp:108 | Sets exactly the neg_backward flag of sample i * N + j |
| CoupledClusterLoss.CoupledClusterLossLayer.MarginLoss | coupled_cluster_loss/coupled_cluster_loss_layer.cpp:109-122 | pos_mdist is the sum of the hinge terms over the non-negatives, divided by the positive count. A non-negative is flagged exactly when its hinge term is positive. Other groups' flags are unchanged |
| CoupledClusterLoss.CoupledClusterLossLayer.RowsMatchSpec | coupled_cluster_loss/coupled_cluster_loss_layer.cpp:93-101 | Rows computed from the reference centroid are the reference diff rows and distances of the group |
| CoupledClusterLoss.CoupledClusterLossLayer.Partition | coupled_cluster_loss/coupled_cluster_loss_layer.cpp:65-85 | Anchor search, partition and averaging: pos_ids[i] and neg_ids[i] are the reference positives and negatives, and centroid row i is the reference centroid |
| CoupledClusterLoss.CoupledClusterLossLayer.Score | coupled_cluster_loss/coupled_cluster_loss_layer.cpp:89-122 | For a contributing group: the distances, diff rows and both flag rows equal the reference ones, and the returned term is the group's reference term. Other groups are unchanged |
| CoupledClusterLoss.CoupledClusterLossLayer.FlagGroup | coupled_cluster_loss/coupled_cluster_loss_layer.cpp:108-122 | Given the group's distances and its hard negative, the flag rows become exactly PosFlag / NegFlag and the term is the averaged hinge sum |
| CoupledClusterLoss.CoupledClusterLossLayer.ProcessGroup | coupled_cluster_loss/coupled_cluster_loss_layer.cpp:63-133 | One iteration of the group loop leaves group i done. The term is the group's contribution, `counted` holds exactly when the group contributes, and a skipped group keeps its distances, diff rows and clear flags |
| CoupledClusterLoss.CoupledClusterLossLayer.Reset | coupled_cluster_loss/coupled_cluster_loss_layer.cpp:50-59 | After the resets every group is pending: no ids, no flags, a zero centroid row |
| CoupledClusterLoss.CoupledClusterLossLayer.ZeroCenter | coupled_cluster_loss/coupled_cluster_loss_layer.cpp:59 | Every centroid row becomes zero |
| CoupledClusterLoss.CoupledClusterLossLayer.NothingDone | coupled_cluster_loss/coupled_cluster_loss_layer.cpp:57-63 | With every group pending, the group loop's invariant holds at group 0 with loss 0 and cnt 0 |
| CoupledClusterLoss.CoupledClusterLossLayer.Advance | coupled_cluster_loss/coupled_cluster_loss_layer.cpp:63-133 | Each group-loop turn keeps the invariant: groups before i + 1 are done, the rest pending, and loss and cnt are the sums over the groups seen so far |
| CoupledClusterLoss.CoupledClusterLossLayer.Forward | coupled_cluster_loss/coupled_cluster_loss_layer.cpp:48-136 | The loss is the reference loss, None when no group contributes. Every group is done: its ids, centroid and flags match the reference, and so do the diff rows and distances of a contributing group. Skipped groups keep their old diff_ and dist_sq_ rows |
| CoupledClusterLoss.CoupledClusterLossLayer.WriteGradient | coupled_cluster_loss/coupled_cluster_loss_layer.cpp:149-157 | Writing member j's gradient row extends the filled prefix of bottom_diff by one row |
| CoupledClusterLoss.CoupledClusterLossLayer.GroupGradient | coupled_cluster_loss/coupled_cluster_loss_layer.cpp:148-158 | The inner loop fills the rows of group i and no others |
| CoupledClusterLoss.CoupledClusterLossLayer.ClearGradient | coupled_cluster_loss/coupled_cluster_loss_layer.cpp:147 | Zeroing bottom_diff starts the gradient loops with every row zero |
| CoupledClusterLoss.CoupledClusterLossLayer.Backward | coupled_cluster_loss/coupled_cluster_loss_layer.cpp:139-160 | Succeeds exactly when the bottom channels and count agree with the layer. When it succeeds and propagates, every row is ±scale * alpha * diff_ for a flagged positive / hard negative and zero otherwise. Otherwise bottom_diff is untouched |
| CoupledClusterLoss.CoupledClusterLossLayer.BackwardAfterForward | coupled_cluster_loss/coupled_cluster_loss_layer.cpp:142-155 | After a forward pass, the row Backward writes is the reference gradient of the inputs |
| CoupledClusterSpec.AnchorFromFindsFirstRepeat | coupled_cluster_loss/coupled_cluster_loss_layer.cpp:67-75 | The scan from position j with the earlier labels as its set returns the first repeated label, or -1 when none repeats |
| CoupledClusterSpec.AnchorIsFirstRepeat | coupled_cluster_loss/coupled_cluster_loss_layer.cpp:65-75 | The anchor is -1 for distinct labels. Otherwise it is the label at the first position that repeats an earlier one, which may itself be -1 |
| CoupledClusterSpec.SelectMembers | coupled_cluster_loss/coupled_cluster_loss_layer.cpp:78-84 | A member is selected exactly when it is before k and its label equality with the anchor is as asked |
| CoupledClusterSpec.SelectIncreasing | coupled_cluster_loss/coupled_cluster_loss_layer.cpp:78-84 | The selected members are strictly ascending and below k |
| CoupledClusterSpec.SelectSizes | coupled_cluster_loss/coupled_cluster_loss_layer.cpp:78-84 | The two selections together have k entries |
| CoupledClusterSpec.PartitionOfGroup | coupled_cluster_loss/coupled_cluster_loss_layer.cpp:78-84 | Positives are exactly the members with the anchor label and negatives the others. Both lists are ascending and their sizes sum to N |
| CoupledClusterSpec.PickAppend | coupled_cluster_loss/coupled_cluster_loss_layer.cpp:80-81 | Pushing a member onto the list appends its row to the picked rows |
| CoupledClusterSpec.SelectBelow | coupled_cluster_loss/coupled_cluster_loss_layer.cpp:78-84 | Every member selected before k is below k |
| CoupledClusterSpec.PositivesBelow | coupled_cluster_loss/coupled_cluster_loss_layer.cpp:80 | Every positive is a member index below N |
| CoupledClusterSpec.CenterIsMean | coupled_cluster_loss/coupled_cluster_loss_layer.cpp:81-85 | With at least one positive, the positives' offsets from the centroid sum to zero: the centroid is their mean |
| CoupledClusterSpec.Dists | coupled_cluster_loss/coupled_cluster_loss_layer.cpp:93-101 | One distance per member, each the squared norm of its diff row, and none negative: a forward pass's distances satisfy the precondition of the hard-negative scan |
| CoupledClusterSpec.DistNonNegative | coupled_cluster_loss/coupled_cluster_loss_layer.cpp:98 | No member's squared distance is negative |
| CoupledClusterSpec.NegMinScanPrefix | coupled_cluster_loss/coupled_cluster_loss_layer.cpp:102-105 | The scan over the first k members depends only on their distances |
| CoupledClusterSpec.NegMinScanFindsFirstMinimum | coupled_cluster_loss/coupled_cluster_loss_layer.cpp:102-105 | The index is set exactly when a negative was scanned, and then it names a negative of minimum distance, the first such. Otherwise the value is -1 |
| CoupledClusterSpec.HardNegativeIsFirstClosest | coupled_cluster_loss/coupled_cluster_loss_layer.cpp:102-105 | In a contributing group the hard negative is a negative member whose distance is at most every negative's and strictly below those of the negatives before it |
| CoupledClusterSpec.Hinge | coupled_cluster_loss/coupled_cluster_loss_layer.cpp:114 | max(x, 0) is non-negative, positive exactly when x is, and x for non-negative x |
| CoupledClusterSpec.MarginSum | coupled_cluster_loss/coupled_cluster_loss_layer.cpp:109-120 | The hinge sum is never negative |
| CoupledClusterSpec.MarginSumPositive | coupled_cluster_loss/coupled_cluster_loss_layer.cpp:109-120 | The hinge sum is positive exactly when some non-negative's distance plus margin exceeds neg_min_val |
| CoupledClusterSpec.QuotientSign | coupled_cluster_loss/coupled_cluster_loss_layer.cpp:122 | Dividing by a positive count keeps non-negativity and positivity |
| CoupledClusterSpec.GroupTerm | coupled_cluster_loss/coupled_cluster_loss_layer.cpp:109-122 | pos_mdist of a contributing group is non-negative, and positive exactly when some positive violates the margin against the hard negative |
| CoupledClusterSpec.FlagsExclusive | coupled_cluster_loss/coupled_cluster_loss_layer.cpp:108-117 | No sample is both a flagged positive and the hard negative |
| CoupledClusterSpec.ExactlyOneHardNegative | coupled_cluster_loss/coupled_cluster_loss_layer.cpp:87-117 | A contributing group flags exactly one hard negative. A skipped group flags nothing |
| CoupledClusterSpec.PosFlagIffViolation | coupled_cluster_loss/coupled_cluster_loss_layer.cpp:110-117 | pos_backward is set exactly for an anchor-labelled member of a contributing group whose distance plus margin exceeds the hard negative's |
| CoupledClusterSpec.TermPositiveIffPosFlag | coupled_cluster_loss/coupled_cluster_loss_layer.cpp:114-122 | A group's term is positive exactly when it flags some positive |
| CoupledClusterSpec.GradientSupport | coupled_cluster_loss/coupled_cluster_loss_layer.cpp:148-158 | Only flagged members get a gradient, and a skipped group gets none. Since diff_ holds scale * offset, the hard negative gets -scale² alpha * offset and a violating positive +scale² alpha * offset |
| CoupledClusterSpec.DistsOf | coupled_cluster_loss/coupled_cluster_loss_layer.cpp:93-101 | A batch group's distances are non-negative, one per member, each its member's squared diff norm |
| CoupledClusterSpec.TermOf | coupled_cluster_loss/coupled_cluster_loss_layer.cpp:87-131 | A group adds a non-negative amount to the loss, and 0 when skipped |
| CoupledClusterSpec.LossSum | coupled_cluster_loss/coupled_cluster_loss_layer.cpp:131 | The running loss is never negative |
| CoupledClusterSpec.LossNonNegative | coupled_cluster_loss/coupled_cluster_loss_layer.cpp:131-134 | The loss, when defined, is never negative |
| CoupledClusterSpec.ValidCountPositive | coupled_cluster_loss/coupled_cluster_loss_layer.cpp:132 | cnt is positive exactly when some group so far contributed, and at most the number of groups seen |
| CoupledClusterSpec.LossDefinedIffSomeGroupContributes | coupled_cluster_loss/coupled_cluster_loss_layer.cpp:132-134 | The division by cnt is defined exactly when some group contributes |
| Vectors.ScaleUnlessOne | coupled_cluster_loss/coupled_cluster_loss_layer.cpp:96-97 | Skipping the scaling when scale == 1 gives the same row as scaling |
| Vectors.ScaleOne | coupled_cluster_loss/coupled_cluster_loss_layer.cpp:96-97 | Scaling by 1 changes nothing |
| Vectors.DotSelfNonNegative | coupled_cluster_loss/coupled_cluster_loss_layer.cpp:98 | A row's dot product with itself is never negative |
| Vectors.VecSumAppend | coupled_cluster_loss/coupled_cluster_loss_layer.cpp:81 | Adding one more row to the running sum is vector addition |
| Vectors.DeviationSumIsSumMinusCount | coupled_cluster_loss/coupled_cluster_loss_layer.cpp:81-85 | The offsets of k rows from c sum to their sum minus k·c |
| Vectors.MeanIsBalanced | coupled_cluster_loss/coupled_cluster_loss_layer.cpp:81-85 | The offsets of the rows from sum/count add up to zero |
| Vectors.ScaleTwice | coupled_cluster_loss/coupled_cluster_loss_layer.cpp:152-155 | Scaling by beta and then alpha is scaling by their product |
| Blas.Set | coupled_cluster_loss/coupled_cluster_loss_layer.cpp:59 | caffe_set: the range holds the value and nothing else changes |
| Blas.AddInto | coupled_cluster_loss/coupled_cluster_loss_layer.cpp:81 | caffe_add in place: the range becomes old + x and nothing else changes |
| Blas.SubInto | coupled_cluster_loss/coupled_cluster_loss_layer.cpp:95 | caffe_sub: the range becomes x - y and nothing else changes |
| Blas.ScaleInPlace | coupled_cluster_loss/coupled_cluster_loss_layer.cpp:85 | caffe_cpu_scale in place: the range becomes alpha · old and nothing else changes |
| Blas.AxpbyZero | coupled_cluster_loss/coupled_cluster_loss_layer.cpp:152 | caffe_cpu_axpby with beta 0: the range becomes alpha · x and nothing else changes |
| Blas.DotSelf | coupled_cluster_loss/coupled_cluster_loss_layer.cpp:98 | caffe_cpu_dot of a range with itself returns its squared norm |
| Aggregate.ChannelSumIsColumnSum | aggregate/aggregate_layer.cpp:25-34 | The running sum after k samples is the sum of the first k entries of the column |
| Aggregate.AggregatedIsColumnSums | aggregate/aggregate_layer.cpp:25-37 | Each output channel is the sum of its column over the whole batch |
| Aggregate.ChannelSumReadsOnlyItsColumn | aggregate/aggregate_layer.cpp:27-29 | A channel's sum reads no other channel |
| Aggregate.ChannelSumAdditive | aggregate/aggregate_layer.cpp:25-34 | Aggregating a sum of two blobs sums their aggregates |
| Aggregate.SingleSampleIsCopied | aggregate/aggregate_layer.cpp:25-37 | With one sample the output is the input |
| Aggregate.AggregateLayer.constructor | aggregate/aggregate_layer.cpp:7-11 | num_channels_ and num_images_ come from the bottom blob |
| Aggregate.AggregateLayer.Reshape | aggregate/aggregate_layer.cpp:13-16 | The top is 1 x channels x 1 x 1, with channels entries |
| Aggregate.AggregateLayer.SumChannels | aggregate/aggregate_layer.cpp:23-34 | With samples, tmp holds each channel's column sum. With none, nothing is pushed |
| Aggregate.AggregateLayer.Forward | aggregate/aggregate_layer.cpp:18-39 | Defined exactly when the batch is non-empty or there are no channels. Then top holds the column sums. Otherwise the read of tmp is out of range and top is untouched |
| FeatureExtrapolating.SetUp | feature_extrapolating/feature_extrapolating_layer.cpp:19-31 | Set-up succeeds exactly when num_per_octave > 0 and then copies it and num_scale_base |
| FeatureExtrapolating.TopPlaneAtRealScale | feature_extrapolating/feature_extrapolating_layer.cpp:126-147 | At a real scale the source sample is image * num_scale_base + scale / num_per_octave, and the output plane is that sample's plane unchanged |
| FeatureExtrapolating.GridAdvance | feature_extrapolating/feature_extrapolating_layer.cpp:179-201 | Adding neighbour i's weighted value and, for channel 0, its two trace slots advances the neighbour-loop invariant by one neighbour |
| FeatureExtrapolating.ChannelsAdvance | feature_extrapolating/feature_extrapolating_layer.cpp:138-225 | Writing plane c and, for channel 0, the sample's trace advances the channel-loop invariant by one channel |
| FeatureExtrapolating.ChannelsDone | feature_extrapolating/feature_extrapolating_layer.cpp:138-225 | Once all channels are written, every plane of sample n is its resampled input plane, its trace is the reference trace, and other samples are untouched |
| FeatureExtrapolating.SamplesStart | feature_extrapolating/feature_extrapolating_layer.cpp:115 | A zeroed top blob is the state before the first output sample: every plane is zero |
| FeatureExtrapolating.SamplesAdvance | feature_extrapolating/feature_extrapolating_layer.cpp:124-227 | Finishing output sample n extends the finished prefix of samples by one; the later samples stay zero |
| FeatureExtrapolating.FeatureExtrapolatingLayer.constructor | feature_extrapolating/feature_extrapolating_layer.cpp:27-30 | num_scale_ = (num_scale_base - 1) * num_per_octave + 1 |
| FeatureExtrapolating.FeatureExtrapolatingLayer.Reshape | feature_extrapolating/feature_extrapolating_layer.cpp:34-107 | Fails exactly without base scales. Otherwise it stores the dims and all four tables, num_top = (num / num_scale_base) * num_scale, and a fresh trace buffer |
| FeatureExtrapolating.FeatureExtrapolatingLayer.SetDims | feature_extrapolating/feature_extrapolating_layer.cpp:37-40 | The dims are the bottom's |
| FeatureExtrapolating.FeatureExtrapolatingLayer.SetCounts | feature_extrapolating/feature_extrapolating_layer.cpp:73-81 | num_image_, num_top_ and trace_ take the given values |
| FeatureExtrapolating.FeatureExtrapolatingLayer.SetTables | feature_extrapolating/feature_extrapolating_layer.cpp:43-106 | The five tables take the given values |
| FeatureExtrapolating.FeatureExtrapolatingLayer.Plan | feature_extrapolating/feature_extrapolating_layer.cpp:43-106 | The counts, the trace buffer size (num_top x 8 x height x width) and the tables equal their reference definitions |
| FeatureExtrapolating.FeatureExtrapolatingLayer.NewTrace | feature_extrapolating/feature_extrapolating_layer.cpp:80-81 | A fresh trace buffer of num_top x 8 x height x width |
| FeatureExtrapolating.FeatureExtrapolatingLayer.BuildTables | feature_extrapolating/feature_extrapolating_layer.cpp:43-106 | The scales, flags, mapping and factors tables equal their reference definitions |
| FeatureExtrapolating.FeatureExtrapolatingLayer.CopyScales | feature_extrapolating/feature_extrapolating_layer.cpp:47-51 | scales_base_ holds the parsed base scales |
| FeatureExtrapolating.FeatureExtrapolatingLayer.FillScales | feature_extrapolating/feature_extrapolating_layer.cpp:54-70 | The scale loop fills scales_ with the reference scales |
| FeatureExtrapolating.FeatureExtrapolatingLayer.FillFlags | feature_extrapolating/feature_extrapolating_layer.cpp:84-89 | The two flag loops leave 1 exactly at the multiples of num_per_octave |
| FeatureExtrapolating.FeatureExtrapolatingLayer.FillMapping | feature_extrapolating/feature_extrapolating_layer.cpp:92-95 | The mapping loop fills the nearest base scale of every scale |
| FeatureExtrapolating.FeatureExtrapolatingLayer.FillFactors | feature_extrapolating/feature_extrapolating_layer.cpp:98-106 | The factor loop fills scale / nearest base scale |
| FeatureExtrapolating.FeatureExtrapolatingLayer.TopCell | feature_extrapolating/feature_extrapolating_layer.cpp:114-115 | One height x width plane of the top blob |
| FeatureExtrapolating.FeatureExtrapolatingLayer.TraceCell | feature_extrapolating/feature_extrapolating_layer.cpp:117 | One height x width plane of the trace blob |
| FeatureExtrapolating.FeatureExtrapolatingLayer.WriteTop | feature_extrapolating/feature_extrapolating_layer.cpp:147 | Writes exactly one top pixel |
| FeatureExtrapolating.FeatureExtrapolatingLayer.WriteTrace | feature_extrapolating/feature_extrapolating_layer.cpp:153 | Writes exactly one trace entry, at plane k of output sample n |
| FeatureExtrapolating.FeatureExtrapolatingLayer.WriteSlot | feature_extrapolating/feature_extrapolating_layer.cpp:153-154 | Writes the index to plane 2t and the weight to plane 2t + 1 at one pixel, nothing else |
| FeatureExtrapolating.FeatureExtrapolatingLayer.SlotsStep | feature_extrapolating/feature_extrapolating_layer.cpp:151-155 | One turn of the trace loop writes two more planes of the pixel |
| FeatureExtrapolating.FeatureExtrapolatingLayer.WriteSlots | feature_extrapolating/feature_extrapolating_layer.cpp:151-155 | The trace loop writes the index/weight pair to all four slot pairs of one pixel, nothing else |
| FeatureExtrapolating.FeatureExtrapolatingLayer.Neighbour | feature_extrapolating/feature_extrapolating_layer.cpp:183-199 | One neighbour adds its weighted value when it is on the plane. For channel 0 it records its index and weight, or -1 and 0 when off the plane |
| FeatureExtrapolating.FeatureExtrapolatingLayer.NeighbourStep | feature_extrapolating/feature_extrapolating_layer.cpp:179-201 | One turn of the neighbour loop keeps the interpolation invariant |
| FeatureExtrapolating.FeatureExtrapolatingLayer.Neighbours | feature_extrapolating/feature_extrapolating_layer.cpp:177-202 | The two neighbour loops compute the interpolated value. For channel 0 they write the four trace slots, and for other channels no trace |
| FeatureExtrapolating.FeatureExtrapolatingLayer.Interpolate | feature_extrapolating/feature_extrapolating_layer.cpp:161-203 | An in-range pixel gets the bilinear value of its four neighbours and, for channel 0, their trace |
| FeatureExtrapolating.FeatureExtrapolatingLayer.WritePixel | feature_extrapolating/feature_extrapolating_layer.cpp:144-217 | One pixel of the top gets its reference value (copy, interpolation, or the zero it already holds when out of range) and, for channel 0, its reference trace |
| FeatureExtrapolating.FeatureExtrapolatingLayer.PixelStep | feature_extrapolating/feature_extrapolating_layer.cpp:142-218 | One turn of the width loop extends the filled prefix of the plane by one pixel |
| FeatureExtrapolating.FeatureExtrapolatingLayer.ForwardRow | feature_extrapolating/feature_extrapolating_layer.cpp:142-218 | The width loop fills one image row |
| FeatureExtrapolating.FeatureExtrapolatingLayer.ForwardChannel | feature_extrapolating/feature_extrapolating_layer.cpp:140-219 | The height loop makes the plane the resampled input plane. Channel 0 writes all trace planes of the sample, and other channels write none |
| FeatureExtrapolating.FeatureExtrapolatingLayer.ReadPlane | feature_extrapolating/feature_extrapolating_layer.cpp:135-136 | The plane read is channel c of the source sample, and its resampling is output plane c of sample n |
| FeatureExtrapolating.FeatureExtrapolatingLayer.ChannelStep | feature_extrapolating/feature_extrapolating_layer.cpp:138-225 | One turn of the channel loop fills one more plane of the output sample |
| FeatureExtrapolating.FeatureExtrapolatingLayer.ForwardChannels | feature_extrapolating/feature_extrapolating_layer.cpp:138-225 | Every channel of output sample n is its reference plane, and the trace of n is its reference trace when there are channels. Other samples are untouched |
| FeatureExtrapolating.FeatureExtrapolatingLayer.ForwardSample | feature_extrapolating/feature_extrapolating_layer.cpp:124-137 | The source sample, flag and factor of output sample n are looked up, and its planes and trace are the reference ones |
| FeatureExtrapolating.FeatureExtrapolatingLayer.Forward | feature_extrapolating/feature_extrapolating_layer.cpp:110-227 | After zeroing the top, every output plane is the reference plane and every trace plane the reference trace. With no channels the trace is untouched |
| FeatureExtrapolatingSpec.NumScaleBounds | feature_extrapolating/feature_extrapolating_layer.cpp:30 | With base scales there are at least as many scales as base scales, each base scale k has the slot k * num_per_octave, and without any there is no scale |
| FeatureExtrapolatingSpec.ScaleIndexInRange | feature_extrapolating/feature_extrapolating_layer.cpp:58-66 | The base scale read for a scale, and the next one for a scale between base scales, are in range |
| FeatureExtrapolatingSpec.Scales | feature_extrapolating/feature_extrapolating_layer.cpp:54-70 | The scales table has num_scale_ entries |
| FeatureExtrapolatingSpec.RealScaleIsBase | feature_extrapolating/feature_extrapolating_layer.cpp:62-63 | Scale k * num_per_octave is base scale k |
| FeatureExtrapolatingSpec.ScaleBetween | feature_extrapolating/feature_extrapolating_layer.cpp:64-69 | An interpolated scale lies between its two base scales |
| FeatureExtrapolatingSpec.StepBetween | feature_extrapolating/feature_extrapolating_layer.cpp:67-68 | lo + j * ((hi - lo) / p) with 0 < j < p lies between lo and hi |
| FeatureExtrapolatingSpec.Flags | feature_extrapolating/feature_extrapolating_layer.cpp:84-89 | The flags table has num_scale_ entries |
| FeatureExtrapolatingSpec.FlagsMarkBaseScales | feature_extrapolating/feature_extrapolating_layer.cpp:84-89 | A flag is 0 or 1, and 1 exactly at a multiple k * num_per_octave below num_scale_base * num_per_octave |
| FeatureExtrapolatingSpec.RoundFIsNearest | feature_extrapolating/feature_extrapolating_layer.cpp:95 | roundf returns the nearest integer with halves away from zero |
| FeatureExtrapolatingSpec.FloorOfQuotient | feature_extrapolating/feature_extrapolating_layer.cpp:95 | The floor of the real quotient of naturals is their integer quotient |
| FeatureExtrapolatingSpec.NearestIsIntegerRounding | feature_extrapolating/feature_extrapolating_layer.cpp:95 | roundf(i / p) is (2i + p) / (2p) in integer division |
| FeatureExtrapolatingSpec.NearestIsClosest | feature_extrapolating/feature_extrapolating_layer.cpp:95 | The mapped base scale is within one half of i / p |
| FeatureExtrapolatingSpec.Mapping | feature_extrapolating/feature_extrapolating_layer.cpp:92-95 | The mapping table has num_scale_ entries |
| FeatureExtrapolatingSpec.NearestInRange | feature_extrapolating/feature_extrapolating_layer.cpp:95-103 | Every mapped base scale index is a valid base scale |
| FeatureExtrapolatingSpec.NearestAtRealScale | feature_extrapolating/feature_extrapolating_layer.cpp:95 | A real scale maps to its own base scale |
| FeatureExtrapolatingSpec.Factors | feature_extrapolating/feature_extrapolating_layer.cpp:98-106 | The factor table has num_scale_ entries |
| FeatureExtrapolatingSpec.FactorOneAtRealScale | feature_extrapolating/feature_extrapolating_layer.cpp:98-106 | The rescaling factor at a real scale is 1 |
| FeatureExtrapolatingSpec.SourceSampleInRange | feature_extrapolating/feature_extrapolating_layer.cpp:126-135 | Every output sample reads a batch sample of its own image, inside the batch |
| FeatureExtrapolatingSpec.Frac | feature_extrapolating/feature_extrapolating_layer.cpp:168-171 | x - floor(x) lies in [0, 1) |
| FeatureExtrapolatingSpec.TapAt | feature_extrapolating/feature_extrapolating_layer.cpp:179-191 | A neighbour on the plane has an index inside the plane and the bilinear weight |
| FeatureExtrapolatingSpec.GridTap | feature_extrapolating/feature_extrapolating_layer.cpp:183 | A neighbour that passes the bounds test has an index inside the plane |
| FeatureExtrapolatingSpec.GridStep | feature_extrapolating/feature_extrapolating_layer.cpp:179-200 | The running value after i + 1 neighbours adds neighbour i's weighted value |
| FeatureExtrapolatingSpec.GridScatterStep | feature_extrapolating/feature_extrapolating_layer.cpp:186-198 | Writing neighbour i's two trace slots extends the written prefix by two planes |
| FeatureExtrapolatingSpec.TapAtNeighbour | feature_extrapolating/feature_extrapolating_layer.cpp:168-189 | The reference tap of neighbour 2dx + dy is the one the floor, fraction and bounds test of the loop produce |
| FeatureExtrapolatingSpec.RealScaleTrace | feature_extrapolating/feature_extrapolating_layer.cpp:145-156 | At a real scale the pixel is copied, all four trace indices are the source index, and the weights sum to 1 |
| FeatureExtrapolatingSpec.OutOfRangeTrace | feature_extrapolating/feature_extrapolating_layer.cpp:205-216 | An out-of-range pixel stays 0 and its trace holds index -1 and weight 0 |
| FeatureExtrapolatingSpec.BilinearWeightsPartitionUnity | feature_extrapolating/feature_extrapolating_layer.cpp:170-189 | The four bilinear weights lie in [0, 1] and sum to 1 |
| FeatureExtrapolatingSpec.InRangeTrace | feature_extrapolating/feature_extrapolating_layer.cpp:166-199 | For an in-range pixel the first neighbour is on the plane. An on-plane neighbour's trace index falls inside the source sample and carries the bilinear weight, and an off-plane one is -1 with weight 0 |
| FeatureExtrapolatingSpec.ResampledPlane | feature_extrapolating/feature_extrapolating_layer.cpp:140-217 | The resampled plane has height x width pixels |
| FeatureExtrapolatingSpec.RealResampleIsCopy | feature_extrapolating/feature_extrapolating_layer.cpp:145-147 | At a real scale the resampled plane is the input plane itself |
| FeatureExtrapolatingSpec.TraceAtSlot | feature_extrapolating/feature_extrapolating_layer.cpp:151-214 | Trace plane 2t holds slot t's index and plane 2t + 1 its weight |
| FeatureExtrapolatingSpec.SlotPairsAt | feature_extrapolating/feature_extrapolating_layer.cpp:153-154 | Slot pair t holds the index at 2t and the weight at 2t + 1 |
| FeatureExtrapolatingSpec.RealPixelTrace | feature_extrapolating/feature_extrapolating_layer.cpp:151-155 | At a real scale the pixel's trace is four copies of (source index, 0.25) |
| FeatureExtrapolatingSpec.OutOfRangePixelTrace | feature_extrapolating/feature_extrapolating_layer.cpp:210-214 | An out-of-range pixel's trace is four copies of (-1, 0) |
| FeatureExtrapolatingSpec.TapOnGrid | feature_extrapolating/feature_extrapolating_layer.cpp:168-189 | Every reference tap is the grid tap of the loop's floor and fractions |
| FeatureExtrapolatingSpec.ValueOnGrid | feature_extrapolating/feature_extrapolating_layer.cpp:177-185 | The reference interpolation over the first i taps equals the loop's running value |
| FeatureExtrapolatingSpec.SlotOnGrid | feature_extrapolating/feature_extrapolating_layer.cpp:186-198 | Every reference trace value of an in-range pixel equals the loop's grid slot |
| FeatureExtrapolatingSpec.InterpolatedOnGrid | feature_extrapolating/feature_extrapolating_layer.cpp:166-203 | The loop's value and trace for an in-range pixel are the reference ones |
| FeatureExtrapolatingSpec.TraceSlots | feature_extrapolating/feature_extrapolating_layer.cpp:151-214 | One trace plane has height x width entries |
| FeatureExtrapolatingSpec.TracePlanesAt | feature_extrapolating/feature_extrapolating_layer.cpp:144-153 | Reading the eight planes at pixel h * width + w gives that pixel's trace |
| FeatureExtrapolatingSpec.ResampledPlaneAt | feature_extrapolating/feature_extrapolating_layer.cpp:144-203 | The plane at pixel h * width + w is that pixel's value |
| FeatureExtrapolatingSpec.InputPlane | feature_extrapolating/feature_extrapolating_layer.cpp:136-138 | One channel plane of a batch sample |
| FeatureExtrapolatingSpec.TopPlane | feature_extrapolating/feature_extrapolating_layer.cpp:124-217 | Output plane (n, c): the source sample's plane c, resampled |
| FeatureExtrapolatingSpec.TracePlane | feature_extrapolating/feature_extrapolating_layer.cpp:149-214 | Trace plane k of output sample n |

## Left out

- Floating point. `Dtype`, `double` and the aggregate's `float` accumulator are exact reals, so rounding, NaN and infinities are not modelled.
- Integer widths. `int` counters and sizes are unbounded naturals. The `float(i) / float(num_per_octave_)` inside `roundf` is exact.
- Order of the set-up checks. `CoupledClusterLoss.SetUp` tests the blob counts first, the way Caffe's blob-count check runs before `LayerSetUp`.
- Zero group size. `CoupledClusterLoss.SetUp` refuses a zero group size, where the source divides by zero.
- A centroid with no positive. `CoupledClusterSpec.Center` keeps the zero sum, where the source scales it by 1/0 (line 85). The row is never read afterwards, because such a group is skipped at line 87.
- Division by `cnt == 0`. `CoupledClusterSpec.Loss` returns `None` where the source divides by zero.
- Dead code. The `pos_max_val` tracking (lines 92, 106) has no effect and is not modelled. The `CHECK_GE`s at lines 128-129 are implied by the `continue` at line 87 and are not modelled.
- Logging. `log_flag` and the `LOG` calls are not modelled, nor are the layer registration macros and the GPU stubs. The `type()` / `ExactNum*Blobs()` declarations are constants.
- Blob objects. Caffe's `Blob` is reduced to a `Shape` and flat arrays, and `top[0]`'s scalar loss is the returned `Option<real>`.
- CoupledClusterLoss.CoupledClusterLossLayer.Backward: requires `bottom_diff` to be a different array from `diff_`. The source never aliases them, but the model does not cover that case.
- CoupledClusterLoss.CoupledClusterLossLayer.Backward: with `group_num == 0` the alpha is 0 instead of a division by zero. No row exists then, so nothing depends on it.
- CoupledClusterLoss.CoupledClusterLossLayer.Reshape: the base loss layer's reshape of the top into a scalar loss blob is not modelled, since the model has no top blob object; its sample-count check is.
- Aggregate.AggregateLayer.Forward: the bottom must hold `num x channels` entries, that is height = width = 1. The source reads index `j * channels + i` whatever the height and width, so for larger planes it sums the first `num x channels` flat entries, mixing channels and pixels. That case is not modelled.
- Aggregate.AggregateLayer.Forward: with an empty batch and at least one channel the source reads `tmp[i]` out of range (line 36), which is undefined behaviour. The model reports failure (`ok` is false) and leaves the top untouched instead.
- Blas.AxpbyZero: does not model the `0 * y` term of `caffe_cpu_axpby`, which only matters for NaN or infinite `y`.
- FeatureExtrapolating.FeatureExtrapolatingLayer.Reshape:
  - The `std::stod` parse of `scale_string` is not modelled. The parsed base scales are a parameter, and a malformed string is outside the model.
  - It requires non-zero base scales, where the source would divide by zero at line 105.
  - Without base scales it fails, where the source aborts: with `num_per_octave == 1` it divides by zero at line 73, and with `num_per_octave > 1` the negative `num_scale_` already makes the reshape of `scales_` before line 73 fail.
- FeatureExtrapolating.FeatureExtrapolatingLayer.Forward: requires the bottom to have the shape Reshape saw. A zero rescaling factor counts as out of range, where the source's `w / factor` would give an infinity or a NaN.
- The Backward pass of the feature extrapolating layer (lines 230-295) is not part of this model.
- Address arithmetic. The running `batch_data` / `top_data` addresses (lines 136, 222-223) are replaced by explicit (sample, channel) plane offsets.
